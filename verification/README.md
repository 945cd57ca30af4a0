# Verification of the RAG index manager and two smaller cores

This Dafny project models the deterministic logic of the RAG index manager in
`examples/14_rag_index_manager`, the bounded decoding search of
`examples/06_waf_log_analysis.py` and the idempotent approval store of
`examples/20_production_controls.py`, and proves what each of them is for.
Code that computes is a function with lemmas; code that updates things step by
step is a method or a class proved against a function. Verify everything with
`dafny verify dfyconfig.toml`.

- **Visual layout refinement** (`Layout*`, `Placement`, `Geometry*`): an
  arbitrary model response is parsed, repaired and applied. What it says is what
  the document then reads and carries; nothing is lost, duplicated or rewritten,
  and the verifier accepts what the repair step emits.
- **Manifest catalog** (`Catalog*`): a blue/green state machine over runs,
  generations and a pointer for each knowledge base. The class `ManifestCatalog`
  refines it; a history of pointer moves that no operation reads says what the
  queries mean. `CatalogEffects` states each call's condition and effect.
- **Planner and synchronization** (`Planner`, `PlanMeaning`, `Restart`,
  `Convergence`, `Replanning`, `RunSuccess`, `RunOutcome`, `ChunkCounts`,
  `Synchronizer`, `SyncHistory`, `ChunkTables`, `IndexOnlyRun`): what the plan
  is, why restarting is enough, when a synchronization succeeds, what it leaves
  behind, and why one that succeeded leaves no work.
- **Chunker** (`TextSlicing`, `Grouping`, `Chunking`, `ChunkMeaning`,
  `Digest`): conservation of text, greedy grouping with overlap, injective
  identities.
- **Docling restructuring** (`ReadingOrder`, `ReadingReach`, `ReadingMeaning`,
  `TableText`, `TableMarkdown`): the reference graph walk and the invertible
  table printer.
- **Retrieval metrics** (`Ranking`, `Evaluation`), **bounded decodings**
  (`Decodings`, `DecodingOrder`, `PayloadDecoders`) and **approvals**
  (`Approvals`).

Conventions: a raised error is a failure result. Text is `seq<char>` with
Python's whitespace characters. Floats are `real`. SHA-256, also truncated, is
taken to be injective, so a digest is represented by the message that was
hashed. Clock readings and random identifiers are parameters. Every catalog or
approval call is one atomic step.

Properties a reader would expect that hold only under a condition; the exact
condition of each is proved:

- `previous_generation` can name the wrong generation when two publications
  share a timestamp or the clock steps back between them
  (`CatalogHistory.PreviousExact`, `PreviousTie`, `PreviousBackwards`).
- A document without chunks is carried forward when only the index fingerprint
  changed, so the next plan is not a no-op (`Replanning.SyncConverges`,
  `IndexOnlyRun.IndexOnlyUnsettled`). The chunker gives every document it
  accepts at least one chunk, so this takes a document recorded through the
  catalog's own methods; synchronizations alone always converge
  (`ChunkTables.ChunkerConverges`).
- A document's chunk count is wrong after a call that takes over another
  source's chunk ID (`ChunkCounts.CountsAfterChunks`, `StealBreaks`).
- Reading order drops an item whose fallback key equals another item's self
  reference or a reachable group's (`ReadingReach.ReadingOnce`,
  `CollisionDrops`, `GroupCollisionDrops`).
- A preview may not stand at its least depth when a Base64 token past the
  eighth was cut off (`Decodings.LeastDepths`, `PayloadDecoders.LateLetters`).
- With exclusions on, the response parser accepts relations to excluded blocks
  that the verifier then refuses (`LayoutPipeline.AcceptedResponsesPass`,
  `LayoutExclusion.DroppedParentRefused`).

## Model

| member | source | states |
|---|---|---|
| LayoutPipeline.AcceptedResponsesPass | examples/14_rag_index_manager/backends.py:1343-1494 | For every set of model responses, one to a page, that the parser accepts: the stabilized patches pass every check of the verifier in models.py exactly when no remaining parent or group points at an excluded block, and always when exclusions are off. |
| LayoutPipeline.AcceptedResponsesApply | examples/14_rag_index_manager/models.py:645-795 | With exclusions off, applying the accepted responses succeeds exactly when every refined block still fits its metadata limit; three free metadata keys in every raw block are enough. |
| LayoutPipeline.RefinedValid | examples/14_rag_index_manager/models.py:295-338 | A refined block satisfies the block constructor exactly when its layout keys fit beside its own metadata. |
| LayoutPipeline.RefinePage | examples/14_rag_index_manager/backends.py:1343-1494 | One page: fails exactly when the parser rejects the response, else returns the stabilized patch. |
| LayoutRefiner.RefineCaptures | examples/14_rag_index_manager/backends.py:1246-1341 | For every list of captured pages, budgets and answers: fails exactly for duplicate pages, an unusable answer or another failure on a page it sends; otherwise one refined patch for each of the lowest pages within the budget that has blocks, not too many, and was not refused with an HTTP status. |
| LayoutRefiner.SelectedLowest | examples/14_rag_index_manager/backends.py:1675-1704 | The selected captures are the lowest page numbers, as many as the budget allows, ascending. |
| LayoutRefiner.PatchedMeaning | examples/14_rag_index_manager/backends.py:1263-1341 | A selected page gets a patch exactly when it has blocks, at most the limit of them, and was not refused with an HTTP status; the patches come in page order. |
| LayoutRefiner.RefineDocument | examples/14_rag_index_manager/pipeline.py:898-936 | The whole step with exclusions off: succeeds exactly when every answer is usable and every refined block has room for its metadata; the result is then the applied document of the refined patches, which conserves the raw blocks. |
| LayoutExclusion.DroppedParentRefused | examples/14_rag_index_manager/models.py:717-747 | With exclusions on, for any two blocks without boxes on a page: a response that places one under the other and drops that other is parsed, is its own stabilization, and is refused by the verifier. |
| LayoutExclusion.DroppedParentExists | examples/14_rag_index_manager/models.py:295-338 | Such a document exists: one for every two block IDs. |
| LayoutParse.ParseLayoutPatch | examples/14_rag_index_manager/backends.py:1796-1893 | The parser with its cycle walk and the patch constructor returns what its specification returns; `LayoutResponse.ParsedIsDescribed` says what that is. |
| LayoutResponse.ParsedIsDescribed | examples/14_rag_index_manager/backends.py:1796-1944 | For every JSON object and every patch: the parser returns this patch exactly when the response describes it. The order is the listed IDs; each parent, group, role and exclusion is none where the JSON is null, else its text; headings are the listed entries in order without those that are not headings; the page is the one asked for, and the patch passes its constructor without a cycle. |
| LayoutResponse.HeadingMeaning | examples/14_rag_index_manager/backends.py:1856-1872 | A block is a heading exactly when its label spells title or section header between whitespace, up to case and spaces for underscores, or its role is one of the two. |
| LayoutReading.RefinedReads | examples/14_rag_index_manager/backends.py:1497-1574 | A refined page lists, at every position, the block the response lists there, or, for a block that shares its box, a block of that box; the blocks of one box stand in raw order. |
| LayoutReading.SharedUntouched | examples/14_rag_index_manager/backends.py:1543-1574 | A block that shares its box keeps no parent, group, role or exclusion, and nothing is related to it or headed by it. |
| LayoutReading.DocumentReads | examples/14_rag_index_manager/models.py:748-795 | In the refined document every refined page reads as its response lists it, in this sense, without the blocks any patch drops; with exclusions off, all of it. |
| LayoutReading.SharesIsAmbiguous | examples/14_rag_index_manager/backends.py:1512-1532 | A block is ambiguous exactly when another block of the page is first drawn in the same box with the same origin. |
| LayoutParse.AcceptedResponse | examples/14_rag_index_manager/backends.py:1796-1893 | Whatever JSON is accepted, the patch is valid, acyclic, lists the page blocks exactly once, references headings only, and excludes nothing when exclusions are off. |
| Layout.VerifyParentCycles | examples/14_rag_index_manager/backends.py:1934-1944 | The walker terminates and accepts exactly the acyclic parent maps. |
| Layout.VerifyLayoutParentGraph | examples/14_rag_index_manager/models.py:851-861 | The verifier's own walker, in reading order, accepts exactly the acyclic parent maps: the two walkers agree. |
| Layout.WalkRevisits | examples/14_rag_index_manager/models.py:854-861 | One chain: revisiting means a cycle exists, ending means the start reaches a root. |
| Layout.ClearingKeepsAcyclic | examples/14_rag_index_manager/backends.py:1497-1574 | Clearing any parents of an acyclic map leaves it acyclic. |
| Placement.PlaceGroup | examples/14_rag_index_manager/backends.py:1538-1541 | Writing one sorted group onto the positions it held: same positions, canonical order there, everything else untouched, still a permutation. |
| Placement.PlaceGroups | examples/14_rag_index_manager/backends.py:1536-1541 | Placing disjoint groups one after the other keeps every earlier one where it was put. |
| LayoutStabilize.Stabilize | examples/14_rag_index_manager/backends.py:1497-1574 | Always succeeds and produces the stabilized patch: groups in raw order on their positions, other blocks where they were, relations of and to ambiguous blocks cleared. |
| LayoutStabilize.StablePermutes | examples/14_rag_index_manager/backends.py:1497-1574 | The stabilized order is a permutation of the page. |
| LayoutStabilize.StableUnmoved | examples/14_rag_index_manager/backends.py:1497-1574 | A block in no shared box stands where it stood. |
| LayoutStabilize.StabilizedUnique | examples/14_rag_index_manager/backends.py:1497-1574 | The specification determines the patch: two stabilizations of one patch are equal. |
| LayoutStabilize.StabilizedValid | examples/14_rag_index_manager/backends.py:1497-1574 | The stabilized patch satisfies every check of the patch constructor over the same IDs. |
| LayoutStabilize.StabilizedPatch | examples/14_rag_index_manager/backends.py:1497-1574 | Stabilization keeps validity, acyclicity and supported headings; afterwards no relation or heading reference touches an ambiguous block. |
| LayoutStabilize.StabilizeIdempotent | examples/14_rag_index_manager/backends.py:1497-1574 | Stabilizing twice changes nothing more. |
| LayoutStabilize.GroupFacts | examples/14_rag_index_manager/backends.py:1512-1532 | A group is exactly the page blocks drawn in one box, once each, in raw ordinal order. |
| LayoutApply.ApplyLayoutPatches | examples/14_rag_index_manager/models.py:645-795 | Succeeds exactly when the checks pass, every refined block is valid and something remains; the result is then the applied document, whose blocks `LayoutMetadata.AppliedMetadata` and whose order `LayoutReapply.AppliedPage` and `LayoutMetadata.AppliedStands` state. |
| LayoutMetadata.AppliedMetadata | examples/14_rag_index_manager/models.py:748-795 | Every returned block of a patched page carries the parent, group and role key exactly when its patch gives that relation, with that value; every other key is the raw block's; the section path is the first 500 characters, on one line, of each referenced heading's text in order, else the raw path; nothing else differs but the ordinal, which is the block's place. A block of another page differs in its ordinal only. |
| LayoutMetadata.AppliedStands | examples/14_rag_index_manager/models.py:748-756 | Unpatched blocks and whole patched pages stand in raw order, a page where its first raw block stood. |
| LayoutMetadata.DocumentCarries | examples/14_rag_index_manager/models.py:771-795 | From the response to the document: a block of a refined page carries the parent, group and role its response states, unless it, or the block it is related to, shares a box; its section path is the text of the blocks its response lists for it that are headings and share no box, else the raw path. |
| Text.SingleLineMeaning | examples/14_rag_index_manager/models.py:842-843 | A heading text on one line: edge whitespace dropped, every inner run of whitespace one space. |
| LayoutReapply.AppliedPage | examples/14_rag_index_manager/models.py:748-760 | A patched page reads in patch order without the excluded blocks. |
| LayoutApply.CheckPatches | examples/14_rag_index_manager/models.py:676-747 | The verifier accepts exactly the exact page permutations with covered captures, one fingerprint, allowed exclusions, acyclic parents, heading references that are headings and no relation to an excluded block. |
| LayoutApply.RefinePage | examples/14_rag_index_manager/models.py:757-792 | The inner loop over one patch: the retained blocks refined in patch order, or failure at the first invalid one. |
| LayoutReapply.AppliedConserves | examples/14_rag_index_manager/models.py:748-795 | The result is the raw blocks minus the excluded ones, each once, text, label, modality, provenance and image unchanged, ordinals 0..n-1. |
| LayoutReapply.AppliedUnpatched | examples/14_rag_index_manager/models.py:748-756 | Blocks of pages without a patch keep their order and everything but their ordinal. |
| LayoutReapply.ReapplyUnchanged | examples/14_rag_index_manager/models.py:645-795 | Without exclusions, applying the same patches to the result succeeds and changes nothing. |
| LayoutReapply.ReapplyRejected | examples/14_rag_index_manager/models.py:683-694 | With an exclusion, applying the same patches again is refused: the pages are no longer exact permutations. |
| Geometry.LayoutGeometryOrder | examples/14_rag_index_manager/backends.py:1577-1672 | For every set of boxes and distinct IDs the result is the geometry order; it fails only for duplicate IDs on a page with a box. |
| Geometry.GeometryPermutes | examples/14_rag_index_manager/backends.py:1577-1672 | Zones and columns lose and repeat nothing: the order is a permutation, so the coverage error cannot be reached. |
| GeometryReading.VisualMeaning | examples/14_rag_index_manager/backends.py:1590-1622 | A box's edges are its coordinates with the lesser one left and the upper one on top; on a page counted from the bottom the upper edge is the greater one. |
| GeometryReading.ZoneMeaning | examples/14_rag_index_manager/backends.py:1623-1643 | Items at least seven tenths of the page wide are headers in the top quarter of the spanned height and footers in the bottom quarter; all others are body. |
| GeometryReading.ColumnsMeaning | examples/14_rag_index_manager/backends.py:1644-1659 | The columns hold exactly the body; an item joins the column before it while its centre lies at most a quarter of the page width right of the mean of that column, else it opens the next one. |
| GeometryReading.GeometryReads | examples/14_rag_index_manager/backends.py:1637-1672 | In the order every block is read in turn with every later one: headers, body, footers, then blocks without a box by ordinal; a header or footer never above an earlier one, a body block in a column no further left and within a column never above. |
| Geometry.SplitColumns | examples/14_rag_index_manager/backends.py:1644-1659 | The moving-mean loop cuts the body into runs that are tight inside and far apart. |
| Geometry.ColumnSplitUnique | examples/14_rag_index_manager/backends.py:1644-1659 | Such a cut is unique. |
| Geometry.ColumnsLeftToRight | examples/14_rag_index_manager/backends.py:1644-1659 | Every block of an earlier column stands left of, or level with, every block of a later one. |
| CatalogInvariants.ReachableInv | examples/14_rag_index_manager/catalog.py:84-530 | Every sequence of calls, failed ones included, keeps the invariants, whatever the clock reads. |
| CatalogInvariants.ReachableStates | examples/14_rag_index_manager/catalog.py:84-530 | In every reachable state runs and generations are in lockstep, a knowledge base has at most one PUBLISHED generation and it is the pointer's target, and AVAILABLE plus current is exactly the set ever committed. |
| CatalogInvariants.ClosedRunFrozen | examples/14_rag_index_manager/catalog.py:808-812 | Once a run leaves RUNNING its document and chunk rows are the same after any further calls. |
| CatalogInvariants.StepRow | examples/14_rag_index_manager/catalog.py:151-381 | A call writes only rows of its own run's generation and only while that run is RUNNING. |
| CatalogInvariants.BeginInv | examples/14_rag_index_manager/catalog.py:84-149 | A new generation and its run keep every invariant. |
| CatalogInvariants.RecordInv | examples/14_rag_index_manager/catalog.py:151-218 | Recording a document keeps paths unique within a generation and rows attached. |
| CatalogInvariants.ChunksInv | examples/14_rag_index_manager/catalog.py:222-296 | Replacing a source's chunk rows leaves every chunk with its document. |
| CatalogChunks.ChunkManifest | examples/14_rag_index_manager/catalog.py:222-296 | One call records the complete manifest of every source it mentions: exactly the given rows, each count the number of its rows, and repeating the call changes nothing. |
| CatalogInvariants.CarryInv | examples/14_rag_index_manager/catalog.py:298-381 | Carrying a document and its chunks forward keeps the tables consistent. |
| CatalogInvariants.CommitInv | examples/14_rag_index_manager/catalog.py:420-462 | Publishing keeps the invariants: the pointer's target is the one PUBLISHED generation and the stamps agree with the real history. |
| CatalogInvariants.RollbackInv | examples/14_rag_index_manager/catalog.py:486-530 | So does a rollback, successful or refused. |
| CatalogInvariants.FailInv | examples/14_rag_index_manager/catalog.py:464-484 | Failing a run, staged or not, keeps every invariant, the pointers, all rows and every successful generation as they are. |
| CatalogEffects.FailEffect | examples/14_rag_index_manager/catalog.py:464-484 | A run can fail exactly when it exists and is not published; it and its generation are then FAILED, every other run and generation, every row and every pointer is as before. |
| CatalogEffects.FailedForever | examples/14_rag_index_manager/catalog.py:464-484 | Once a run has failed, after any further calls it is still failed, its generation is FAILED, no knowledge base points at it and its rows are the ones it had. |
| CatalogEffects.BeginEffect | examples/14_rag_index_manager/catalog.py:84-149 | Begins exactly with two unused IDs; the run is RUNNING on a BUILDING generation and nothing else changes. |
| CatalogEffects.RecordEffect | examples/14_rag_index_manager/catalog.py:151-218 | A document is recorded exactly by a RUNNING run of its knowledge base, under the run's pipeline and on a path no other source of the generation holds; its row then holds the source and nothing else changes. |
| CatalogEffects.ChunksAccepted | examples/14_rag_index_manager/catalog.py:222-261 | A chunk manifest is accepted exactly from a RUNNING run, with distinct IDs, inside its knowledge base and for recorded documents. |
| CatalogEffects.CarryEffect | examples/14_rag_index_manager/catalog.py:298-381 | A document is carried exactly by a RUNNING run of its knowledge base, under the run's pipeline, where neither its source, its path nor one of its chunk IDs is taken; its row and its chunk rows are copied and nothing else changes. |
| CatalogEffects.StageEffect | examples/14_rag_index_manager/catalog.py:401-418 | Exactly a RUNNING run is sealed: it and its generation become STAGED, nothing else changes. |
| CatalogEffects.CommitEffect | examples/14_rag_index_manager/catalog.py:420-462 | Exactly a STAGED run is published: the pointer moves to its generation, the one left becomes AVAILABLE and is returned, nothing else changes. |
| CatalogEffects.RollbackEffect | examples/14_rag_index_manager/catalog.py:486-530 | Exactly a PUBLISHED or AVAILABLE generation of the knowledge base can be returned to; the current one is left as it is, any other is published again and the one left becomes AVAILABLE. |
| CatalogEffects.GenerationPipeline | examples/14_rag_index_manager/catalog.py:166-169 | In every reachable catalog all documents of a generation have the pipeline digest the generation was begun with. |
| CatalogHistory.PreviousMatchesHistory | examples/14_rag_index_manager/catalog.py:532-551 | With a strictly increasing clock the timestamp query names a generation exactly when it was current just before the latest pointer move. |
| CatalogHistory.PreviousExact | examples/14_rag_index_manager/catalog.py:532-551 | For every reachable catalog and every clock: the query names the generation the pointer last left exactly when no generation it left earlier, and has not returned to, carries a later timestamp, or the same one and a larger ID. |
| CatalogHistory.PreviousSteady | examples/14_rag_index_manager/catalog.py:532-551 | With a clock that never runs backwards the query is right exactly when no AVAILABLE generation with a larger ID shares the predecessor's timestamp. |
| CatalogHistory.PreviousTie | examples/14_rag_index_manager/catalog.py:532-551 | A reachable catalog where two publications share a timestamp and the query names the wrong one. |
| CatalogHistory.PreviousBackwards | examples/14_rag_index_manager/catalog.py:862-863 | A reachable catalog where the clock stepped back between two publications: no timestamps are equal, and the query names the wrong generation. |
| CatalogHistory.FirstIsPrevious | examples/14_rag_index_manager/catalog.py:547-551 | The first listed candidate is the newest AVAILABLE generation. |
| CatalogHistory.PreviousUnique | examples/14_rag_index_manager/catalog.py:532-551 | There is only one newest candidate. |
| CatalogHistory.RollbackSwaps | examples/14_rag_index_manager/catalog.py:486-551 | After rolling back to a candidate, the generation just left is the next target exactly when no earlier one overtakes it by timestamp and ID. |
| CatalogHistory.RollbackTwice | examples/14_rag_index_manager/catalog.py:486-551 | Rolling back to a candidate and then to the previous generation restores the pointer, and with it every generation state, exactly when the first move is not overtaken; rows and runs are untouched either way. |
| CatalogHistory.CommitThenRollback | examples/14_rag_index_manager/catalog.py:420-596 | Publish, any calls that leave the pointer alone, roll back to the previous generation: it is the one from before exactly when the clock let no earlier generation overtake it, and then the documents listed are exactly those from before. |
| CatalogHistory.ListingUnique | examples/14_rag_index_manager/catalog.py:574-596 | The ordered listing of a generation is determined. |
| CatalogStore.ManifestCatalog.BeginRun | examples/14_rag_index_manager/catalog.py:84-149 | Updates the tables as the state machine's step, reports its outcome, and rolls back on a collision. |
| CatalogStore.ManifestCatalog.RecordDocument | examples/14_rag_index_manager/catalog.py:151-218 | Insert or overwrite as the step prescribes; every refused call leaves the tables alone. |
| CatalogStore.ManifestCatalog.RecordChunks | examples/14_rag_index_manager/catalog.py:222-296 | Delete, upsert and recount loops in one transaction equal the step, with rollback when a document is missing. |
| CatalogStore.CountChunks | examples/14_rag_index_manager/catalog.py:229-243 | Accepts exactly the manifests of this knowledge base with distinct chunk IDs, and counts chunks by source. |
| CatalogStore.ManifestCatalog.CarryForwardDocument | examples/14_rag_index_manager/catalog.py:298-381 | Copies the document and its chunk rows, or refuses and changes nothing. |
| CatalogStore.ManifestCatalog.MarkStaged | examples/14_rag_index_manager/catalog.py:401-418 | Seals run and generation together. |
| CatalogStore.ManifestCatalog.CommitPublished | examples/14_rag_index_manager/catalog.py:420-462 | Moves the pointer and returns the generation it came from. |
| CatalogStore.ManifestCatalog.FailRun | examples/14_rag_index_manager/catalog.py:464-484 | Updates the tables as the state machine's step, whose effect is `CatalogEffects.FailEffect`, and reports its outcome. |
| CatalogStore.ManifestCatalog.RollbackToGeneration | examples/14_rag_index_manager/catalog.py:486-530 | Moves the pointer to a successful generation of the knowledge base, else refuses. |
| CatalogStore.ManifestCatalog.RollbackCandidates | examples/14_rag_index_manager/catalog.py:532-545 | Lists exactly the AVAILABLE generations, newest first, ties by larger ID. |
| CatalogStore.ManifestCatalog.PreviousGeneration | examples/14_rag_index_manager/catalog.py:547-551 | Returns the newest candidate, if any. |
| CatalogStore.ManifestCatalog.ListDocuments | examples/14_rag_index_manager/catalog.py:574-596 | Lists exactly one generation's rows of the knowledge base, by path and source ID. |
| Planner.PlanIncrementalSync | examples/14_rag_index_manager/planner.py:19-156 | Fails exactly for mixed or missing knowledge bases, duplicate identities or disagreeing paths; otherwise returns the plan, whose actions `PlanMeaning.ActionMeaning` states. |
| PlanMeaning.ActionMeaning | examples/14_rag_index_manager/planner.py:51-156 | Every action names the scanned source and the published document of its ID. It is new exactly without a document, modified exactly when the hashes differ, pipeline-changed exactly when they agree and the pipelines differ or there is no chunk, unchanged exactly otherwise, deleted exactly without a source. New and modified sources start at parsing; after a change of pipeline the start is the latest stage from which every stage chain gives what a full recomputation gives; without chunks it is parsing. |
| PlanMeaning.PlanCovers | examples/14_rag_index_manager/planner.py:51-151 | Exactly the IDs of either input have an action, and the actions come in path order. |
| PlanMeaning.TodoMeaning | examples/14_rag_index_manager/pipeline.py:761-809 | When a generation is published and a document was embedded with another vector size, every source that would start behind embedding is sent back to it; otherwise, and for all other actions, the list is as planned. |
| PlanMeaning.RebuildMeaning | examples/14_rag_index_manager/pipeline.py:727-758 | A forced rebuild names its inputs as a plan does, starts every source at parsing and removes every document without a source. |
| Planner.PlanOrderIndependent | examples/14_rag_index_manager/planner.py:51-156 | The plan does not depend on the order of either input. |
| Planner.OneActionPerId | examples/14_rag_index_manager/planner.py:51-156 | Every ID in either input has exactly one action and nothing else has one. |
| Planner.SortedActions | examples/14_rag_index_manager/planner.py:151 | Sorting actions with different IDs gives a strictly ordered list. |
| Restart.RestartFirst | examples/14_rag_index_manager/planner.py:159-176 | The chosen stage is the first whose fingerprint differs; all earlier fingerprints are equal. |
| Restart.RestartSound | examples/14_rag_index_manager/planner.py:99-112 | For every stage chain, each stage reading the earlier outputs and the fingerprints up to its own, restarting at or before the chosen stage on outputs cached under the old fingerprint equals recomputing everything. |
| Restart.RestartLatest | examples/14_rag_index_manager/planner.py:159-176 | A start stage is right for every stage chain exactly when it does not lie after the chosen one. |
| Restart.PlanRestartsRight | examples/14_rag_index_manager/planner.py:72-139 | Following the plan leaves every scanned source with the outputs of a full recomputation. |
| Convergence.PerformActions | examples/14_rag_index_manager/pipeline.py:419-509 | The loop stops at the first failing action and otherwise performs them all. |
| Convergence.Synchronize | examples/14_rag_index_manager/pipeline.py:403-606 | A whole run on the catalog object, failure path included. |
| RunOutcome.FailedRunLeaves | examples/14_rag_index_manager/pipeline.py:403-606 | A run that cannot begin changes nothing. A run that begins and fails leaves its generation FAILED and every other run, generation, pointer and row as it was; no later call revives it. |
| RunOutcome.SucceededRunLeaves | examples/14_rag_index_manager/pipeline.py:403-570 | A run that succeeds leaves its generation PUBLISHED and pointed at, the one before it AVAILABLE, and every other run, generation, pointer and row as it was. |
| RunOutcome.PublishesWithChunks | examples/14_rag_index_manager/pipeline.py:511-560 | A run whose actions all succeed is published exactly when its generation holds a chunk. |
| Replanning.SyncConverges | examples/14_rag_index_manager/pipeline.py:353-606 | After a run that follows a plan and succeeds, planning again on the same sources and pipeline is accepted, and is a no-op exactly when every processed source yields a chunk and every carried document had one. |
| Replanning.SyncedHolds | examples/14_rag_index_manager/pipeline.py:419-570 | The published generation holds exactly one row for each kept source: path, hash, file details, current pipeline and chunk count. |
| Replanning.IndexOnlyEmpty | examples/14_rag_index_manager/planner.py:99-125 | Only the index fingerprint changed and the document has no chunks: it is carried over, and the next plan parses it again. |
| IndexOnlyRun.IndexOnlyUnsettled | examples/14_rag_index_manager/planner.py:99-125 | A reachable catalog with a document recorded without chunks beside one with a chunk, a plan in which only the index fingerprint changed, a run of it that succeeds, and a second plan that still has work. |
| Replanning.ForcedFollowable | examples/14_rag_index_manager/pipeline.py:779-809 | The dimension migration turns a list into one that covers the same sources, carries nothing over and leaves no action unchanged. |
| RunSuccess.RunSucceeds | examples/14_rag_index_manager/pipeline.py:403-560 | With fresh IDs and chunk IDs that belong to one source each, no action fails exactly when every source processed anew could be processed; the run then publishes unless the generation would hold no chunk. |
| ChunkCounts.CountsAfterChunks | examples/14_rag_index_manager/catalog.py:262-292 | After recording chunks every document of the generation counts its rows right again exactly when no chunk takes over the ID of a row whose source the call does not mention. |
| ChunkCounts.StealBreaks | examples/14_rag_index_manager/catalog.py:262-292 | Such a call is accepted, and the count of the source that lost its row is then wrong. |
| ChunkCounts.PerformCounts | examples/14_rag_index_manager/pipeline.py:427-509 | Carrying, skipping or processing one source leaves every count of the new generation equal to its chunk rows. |
| Synchronizer.Sync | examples/14_rag_index_manager/pipeline.py:353-606 | One synchronization on the catalog object: list, plan or rebuild, migrate, return early without work, refuse an empty source list, else run; a rejected plan changes nothing. |
| Synchronizer.RebuildList | examples/14_rag_index_manager/pipeline.py:727-758 | The forced rebuild lists every source once, from its parse on, and removes every other published document, sorted by path. |
| Synchronizer.SyncAgain | examples/14_rag_index_manager/pipeline.py:353-402 | After a successful synchronization, planned or forced, migrated or not, the next one on the same sources and pipeline has no work and changes nothing, if every kept source has a chunk. |
| SyncHistory.TraceSound | examples/14_rag_index_manager/pipeline.py:1071-1077 | In any history of synchronizations and rollbacks, failed ones included, every current or retained generation has in each document at least one chunk and exactly as many chunk rows as its count says, so the copy check of the carried documents cannot fail for the manifest's part. |
| SyncHistory.SyncsConverge | examples/14_rag_index_manager/pipeline.py:353-606 | In any such history every synchronization that succeeds converges: the next plan is accepted without work and the next synchronization leaves the catalog as it is. |
| SyncHistory.SyncSucceeds | examples/14_rag_index_manager/pipeline.py:353-560 | With fresh IDs an accepted synchronization succeeds exactly when there is nothing to do, or there is a source and every source processed anew could be processed. |
| ChunkTables.Materialize | examples/14_rag_index_manager/pipeline.py:987-1004 | Chunking a source for the manifest fails exactly on a rejected block list. |
| ChunkTables.ChunkingFacts | examples/14_rag_index_manager/chunking.py:198-267 | Accepted blocks give at least one chunk; each names its source, and so does the identity its ID is derived from; IDs differ. |
| ChunkTables.ProcessedChunked | examples/14_rag_index_manager/chunking.py:205-217 | Chunk tables filled by the chunker meet every hypothesis of the results on synchronization, the owner of a chunk ID being read off its identity. |
| ChunkTables.ChunkerConverges | examples/14_rag_index_manager/pipeline.py:353-606 | In every history whose chunks come from the chunker, counts are right, no published document is empty, and each successful synchronization has nothing left to do. |
| TextSlicing.SplitText | examples/14_rag_index_manager/chunking.py:270-294 | Terminates for every text and positive maximum and returns exactly the specified slices. |
| TextSlicing.SplitConserves | examples/14_rag_index_manager/chunking.py:270-294 | Slices are ordered, disjoint, exact, of length 1..maximum, without edge whitespace, and every other character lies in exactly one. |
| TextSlicing.CutMeaning | examples/14_rag_index_manager/chunking.py:275-288 | Where a long text is cut: after the last separator in the second half of the window, in order of preference, else at the limit. |
| Grouping.GroupPieces | examples/14_rag_index_manager/chunking.py:151-184 | The greedy loop with carried overlap produces the specified intervals, each group being its slice of the pieces; `GroupBoundaries` says where they begin and end. |
| Grouping.GroupBoundaries | examples/14_rag_index_manager/chunking.py:151-184 | A group ends only where the next piece is unrelated or would exceed the maximum. The next group starts at the least start whose pieces up to there fit the overlap, if the neighbours are related and the next piece still fits behind them; else behind the group. |
| Grouping.OverlapTail | examples/14_rag_index_manager/chunking.py:324-336 | The carried tail is the longest suffix of the group that fits the overlap. |
| Grouping.GroupAdvances | examples/14_rag_index_manager/chunking.py:151-184 | Group ends and starts strictly increase: no piece is dropped and none is stuck. |
| Grouping.GroupingBounds | examples/14_rag_index_manager/chunking.py:151-201 | Joined length never exceeds the maximum and consecutive groups overlap by at most the overlap. |
| Chunking.ChunkBlocks | examples/14_rag_index_manager/chunking.py:79-267 | With consistent enrichments, succeeds exactly for a non-empty bounded list of blocks of the source with distinct IDs and increasing ordinals; chunks are the specified groups with pairwise different IDs. |
| Chunking.CheckBlocks | examples/14_rag_index_manager/chunking.py:91-116 | Accepts exactly the blocks of this source revision with distinct IDs in increasing order. |
| Chunking.GroupGuarantees | examples/14_rag_index_manager/chunking.py:133-201 | Groups are contiguous with increasing ends, bounded in length and overlap, each in one section, and an isolated piece never shares a group with another block, so the bounds error is unreachable. |
| Chunking.PiecesWellCut | examples/14_rag_index_manager/chunking.py:133-147 | The pieces are the non-blank slices of the blocks, in order, each exact. |
| Chunking.ChunkIdsDiffer | examples/14_rag_index_manager/chunking.py:198-235 | Two groups of one call never get the same chunk ID. |
| Chunking.IdentityInjective | examples/14_rag_index_manager/chunking.py:198-213 | The rendered ranges of a group determine its pieces, whatever characters the block IDs contain. |
| Chunking.ContentLength | examples/14_rag_index_manager/chunking.py:339-340 | The joined length is the length of the joined text. |
| ChunkMeaning.ChunkBoundaries | examples/14_rag_index_manager/chunking.py:151-184 | The same on the texts of the chunks: a chunk takes every next piece of its section that may share it and fits the maximum, ends where the next does not, and the next chunk repeats the longest suffix within the overlap that leaves room for the next piece. |
| ChunkMeaning.SpanMeaning | examples/14_rag_index_manager/chunking.py:201 | A chunk's text is the text of its pieces, a blank line between neighbours. |
| ChunkMeaning.ChunkBlockIds | examples/14_rag_index_manager/chunking.py:205-206 | A chunk names exactly the blocks of its pieces, each once, in order of first occurrence. |
| ChunkMeaning.ChunkIdFixes | examples/14_rag_index_manager/chunking.py:213-235 | Two chunks with one ID have the same source revision, the same pipeline revisions, the same pieces and the same text. |
| Digest.StableDigest | examples/14_rag_index_manager/models.py:108-116 | Hashes the length-prefixed encoding of the values; fails only for a value of 2^64 bytes. |
| Digest.BigEndianMeaning | examples/14_rag_index_manager/models.py:114 | The eight length bytes are the length, most significant byte first. |
| Digest.EncodeInjective | examples/14_rag_index_manager/models.py:108-116 | Different value sequences are never encoded alike. |
| Digest.Utf8Injective | examples/14_rag_index_manager/models.py:113 | Different texts have different UTF-8 encodings. |
| Digest.PipelineDigestInjective | examples/14_rag_index_manager/models.py:176-196 | Two pipelines share a digest exactly when all eight fields agree, across the three digest layouts. |
| ReadingOrder.IndexItems | examples/14_rag_index_manager/restructure.py:141-177 | Fails exactly for an invalid collection, a long or duplicate self reference, or too many items; otherwise indexes every reference and lists every item. |
| ReadingMeaning.SerializedMeaning | examples/14_rag_index_manager/restructure.py:141-177 | The serialized items are exactly the mappings of the five collections, collection by collection in the order texts, tables, pictures, key-value items, groups, each in list order. |
| ReadingMeaning.ResolveMeaning | examples/14_rag_index_manager/restructure.py:199-205 | A value stands for the item its `$ref` names; only without one for the item its own reference names; else for none. |
| ReadingReach.IndexedKeys | examples/14_rag_index_manager/restructure.py:141-177 | Every index the code builds files each item under its own key. |
| ReadingOrder.Walker.Visit | examples/14_rag_index_manager/restructure.py:190-221 | The recursive walk with its two limits, tied to its specification. |
| ReadingOrder.InReadingOrder | examples/14_rag_index_manager/restructure.py:180-234 | The walk from the body and then the unvisited items in serialized order. |
| ReadingMeaning.ReadingLimits | examples/14_rag_index_manager/restructure.py:191-224 | The walk succeeds exactly when, without limits, it would take at most eight values for each allowed block and go at most 64 levels deep. |
| ReadingMeaning.RestMeaning | examples/14_rag_index_manager/restructure.py:225-233 | Behind the walk follow, in serialized order, exactly the first items of their keys that are no groups and were not visited. |
| ReadingReach.WalkIsPreorder | examples/14_rag_index_manager/restructure.py:190-221 | Whenever the bounded walk returns, it did what an unbounded stack preorder does. |
| ReadingReach.VisitedIsReachable | examples/14_rag_index_manager/restructure.py:180-224 | The visited keys are exactly those reachable from the body, on any cyclic or shared graph. |
| ReadingReach.OrderIsReading | examples/14_rag_index_manager/restructure.py:180-234 | What is returned is the preorder of the reachable items followed by the rest. |
| ReadingReach.ReadingKeysDiffer | examples/14_rag_index_manager/restructure.py:225-233 | No key is ever listed twice. |
| ReadingReach.ReadingOnce | examples/14_rag_index_manager/restructure.py:141-234 | Every item that is not a group is listed exactly once, exactly when item keys differ from each other and from the keys of the groups reachable from the body in the reference graph. |
| ReadingReach.CollisionDrops | examples/14_rag_index_manager/restructure.py:452-456 | A document where a fallback key equals a real self reference: one item is never listed. |
| ReadingReach.GroupCollisionDrops | examples/14_rag_index_manager/restructure.py:225-233 | A document where a reachable group refers to itself as the place of the only text: nothing is listed. |
| TableText.TableCellPrintable | examples/14_rag_index_manager/restructure.py:467-468 | Whatever its text, a cell holds no unescaped pipe and no line break, also after truncation. |
| TableText.CellMeaning | examples/14_rag_index_manager/restructure.py:467-468 | A cell is its text on one line without NUL characters, pipes escaped, cut at the limit; undoing the escapes gives that line back. |
| TableText.RowRoundTrip | examples/14_rag_index_manager/restructure.py:337-341 | Splitting a printed row at pipes not preceded by a backslash gives its cells back. |
| TableText.TableRoundTrip | examples/14_rag_index_manager/restructure.py:335-342 | Reading a printed table gives the same grid back, header row first. |
| TableMarkdown.Render | examples/14_rag_index_manager/restructure.py:294-342 | Fails exactly for too many cells or a cell outside the bounds; otherwise prints the grid of the placed cells with a header row. |
| TableMarkdown.FillGrid | examples/14_rag_index_manager/restructure.py:325-331 | Filling the grid in place leaves every position with its merged texts. |
| TableMarkdown.MergedMeaning | examples/14_rag_index_manager/restructure.py:328-331 | A position shows its texts joined, past any leading empty ones. |
| TableMarkdown.PositionMeaning | examples/14_rag_index_manager/restructure.py:304-331 | A grid position shows exactly the texts of the entries that stand there, in order: a row that is not given is the entry number, a column that is not given the first. |
| TableMarkdown.AcceptedMeaning | examples/14_rag_index_manager/restructure.py:300-320 | A table is accepted exactly with at most 10000 entries, none of which stands behind row 1000 or column 256. |
| TableMarkdown.GridReaches | examples/14_rag_index_manager/restructure.py:316-324 | The grid reaches every entry that stands somewhere. |
| TableMarkdown.HeaderRow | examples/14_rag_index_manager/restructure.py:332-334 | Finds the topmost row with a header cell, else the first row. |
| TableMarkdown.RenderRoundTrip | examples/14_rag_index_manager/restructure.py:294-342 | The Markdown of any cells can be parsed back to their rectangular grid. |
| Evaluation.Judge | examples/14_rag_index_manager/evaluation.py:360-410 | Fails exactly for duplicate chunks or unsorted scores; otherwise every metric has its defined value over the ranked distinct sources. |
| Common.FirstOccurrencesMeaning | examples/14_rag_index_manager/evaluation.py:376 | Duplicates removed: the different values, ordered by where each first occurs. |
| Evaluation.RankedMeaning | examples/14_rag_index_manager/evaluation.py:376 | The ranking is the first `top_k` different sources, or all of them, by first hit; every source left out is first hit later. |
| Evaluation.FoundCount | examples/14_rag_index_manager/evaluation.py:380-385 | The expected IDs with a rank are as many as the relevant sources retrieved. |
| Evaluation.RanksMeaning | examples/14_rag_index_manager/evaluation.py:380-384 | One over the best expected rank is one over the first relevant rank. |
| Ranking.SeenMeaning | examples/14_rag_index_manager/evaluation.py:387-391 | The ranking loop's hit count is the number of relevant sources in the prefix. |
| Ranking.MetricsOrdered | examples/14_rag_index_manager/evaluation.py:383-393 | 0 <= AP <= recall <= 1. |
| Ranking.PositiveTogether | examples/14_rag_index_manager/evaluation.py:383-405 | Average precision, reciprocal rank and recall are positive together, exactly when something relevant was retrieved. |
| Ranking.PerfectRanking | examples/14_rag_index_manager/evaluation.py:386-393 | AP = 1 exactly when the first |relevant| ranks are the relevant set. |
| Ranking.PromotionHelps | examples/14_rag_index_manager/evaluation.py:386-393 | Moving a relevant source one place ahead of an irrelevant one raises AP and never lowers the reciprocal rank. |
| Evaluation.Summarize | examples/14_rag_index_manager/evaluation.py:413-442 | Every rate is the mean of its case metric and every count its sum; fails exactly without results. |
| Evaluation.CaseCounts | examples/14_rag_index_manager/evaluation.py:413-442 | The counted sums are the numbers of cases that hit, hit at rank one, retrieved a forbidden source and retrieved one first. |
| Evaluation.AggregateOrdered | examples/14_rag_index_manager/evaluation.py:413-442 | hit@1 <= MRR <= hit rate, MAP <= mean recall <= hit rate, all rates in [0,1], and forbidden-at-1 plus hit@1 at most one. |
| Decodings.BoundedDecodings | examples/06_waf_log_analysis.py:449-519 | Terminates with the first four of all new values that two levels of decoding give, each with a path of depth 1..2 that leads to it. The flag is set exactly when there are four, or the values decoded have more than eight tokens or something too large between them; when it is false, the values are exactly those one or two legal transforms reach. |
| Decodings.Transform | examples/06_waf_log_analysis.py:464-487 | One value's decodings within the candidate budget, in order; the flag rises exactly for a token behind the budget or over the size limit. |
| Decodings.Record | examples/06_waf_log_analysis.py:489-515 | New values are recorded once, in order, until four are reached. |
| DecodingOrder.TokenOrder | examples/06_waf_log_analysis.py:473-487 | The readable tokens are listed as they stand in the value. |
| DecodingOrder.PercentFirst | examples/06_waf_log_analysis.py:464-471 | The percent decoding of a value comes before its tokens. |
| DecodingOrder.NewOrder | examples/06_waf_log_analysis.py:489-515 | The previews a value adds are those of the positions that first give a value that fits and is new, in order. |
| DecodingOrder.LevelsInOrder | examples/06_waf_log_analysis.py:458-515 | What one transform reaches is listed before what takes two. |
| Decodings.LeastDepths | examples/06_waf_log_analysis.py:449-519 | A preview stands at its least depth exactly when its value is not one that the payload yields only by a token past the eighth; always when the flag is false. |
| Decodings.LateTokenSearch | examples/06_waf_log_analysis.py:473-477 | Whenever a payload's first token decodes to m, percent decoding turns m into what the ninth token decodes to, and nothing else decodes: the search sets its flag and shows that value at depth two, although one transform yields it. |
| PayloadDecoders.MatchesMeaning | examples/06_waf_log_analysis.py:429-431 | The scan finds exactly the matches of the Base64 token pattern: a whole run of sixteen or more letters, at most two paddings, nothing of either around it. |
| PayloadDecoders.SpacedMatches | examples/06_waf_log_analysis.py:473 | Words of letters with at most one padding, separated by spaces, are all matched, in order. |
| PayloadDecoders.LateLetters | examples/06_waf_log_analysis.py:449-519 | With percent and Base64 decoding evaluated on a payload of nine words, the search shows `ABCDEFGHIJKL` at depth two although the ninth word is its Base64 text. |
| Approvals.InMemoryApprovalStore.ApproveOnce | examples/20_production_controls.py:151-220 | The locked method is one atomic step of the store. |
| Approvals.DecisionTable | examples/20_production_controls.py:151-220 | What any call of any run returns, from the changes as they were opened and the earlier fresh approvals alone: under a used key the replayed receipt or a conflict; for a change already approved a refusal; else not found, outside scope, stale version, not eligible, or a fresh receipt exactly for a pending low-risk change of the same tenant and version with tests passed and rollback ready. |
| Approvals.RunInv | examples/20_production_controls.py:151-220 | After any calls the write count equals the stored keys, the approved business keys and the calls that newly approved. |
| Approvals.OnlyFreshWrites | examples/20_production_controls.py:151-220 | Failed and replayed calls change nothing; a fresh approval changes one eligible change's status. |
| Approvals.FirstApprovalStands | examples/20_production_controls.py:172-190 | After a first approval, the same key and payload return the first receipt with only `replayed` changed, the same key with another payload conflicts, and no call approves that change again. |
| Approvals.ApprovedOnce | examples/20_production_controls.py:151-220 | In any run at most one call newly approves a change. |
| Approvals.StatusHistory | examples/20_production_controls.py:151-220 | A change record differs only in its status, which moved from pending to approved exactly when some call approved it. |

## Left out

- Layout.ValidBlock: identifier and digest patterns of blocks, sources and runs are not checked character by character; the fixed length of a block ID, which the chunk identities need, is.
- LayoutApply.ApplyLayoutPatches: error classes and messages are not told apart; every refusal is one failure.
- LayoutParse.ParseLayoutPatch: JSON numbers are reals, compared with the page number as Python compares them; a response that is not a mapping, and unhashable heading entries, which raise a different error class, are the same failure.
- LayoutRefiner.RefineCaptures: the HTTP exchange, its deadline and concurrency are not modelled; what asking about a page ends in is a parameter, and pages are asked about in order.
- Geometry.LayoutGeometryOrder: whether the source is an office format is a parameter; coordinates are reals, so float rounding is not modelled.
- LayoutParse.IsHeading: lower-casing is ASCII, which is exact for the two labels compared.
- CatalogStore.ManifestCatalog.RecordDocument: columns no query reads (`staged_at`, `finished_at`, `error`, `updated_at`) and the deletion tombstones of `mark_deleted` are not stored; identifier validation is left to the caller.
- CatalogStore.ManifestCatalog.RollbackCandidates: SQLite's sort is represented by repeated selection of the least row.
- SQLite text, WAL mode, schema migration and races between connections: a transaction is one atomic step.
- Planner.PlanIncrementalSync: the human-readable reason of an action is not modelled.
- Restart.RestartSound: that cached artifacts were produced under the old fingerprint is a hypothesis; artifact loading and its fallback to earlier stages are not modelled.
- Convergence.Synchronize: the vector store is not modelled: staging, copying, validating and publishing the index, and reconciling it with the catalog when a commit fails; neither are embedding calls, stage logging and asynchronous scheduling. The early return without work, the refusal of an empty source list and the plan are in Synchronizer.Sync.
- Convergence.PerformAction: the copy check against the vector store and the deletion tombstone are not modelled; the manifest's side of the check, that a document's count is the number of its chunk rows, is SyncHistory.TraceSound.
- ChunkTables.Materialize: parsing, refinement and enrichment before the chunker are one step that yields its block list or fails; loading artifacts is not modelled.
- ChunkTables.ProcessedChunked: that no two digests share their first 32 hexadecimal digits is a hypothesis; a source of more than a million chunks is refused by the catalog.
- Chunking.ChunkBlocks: the consistency checks on enrichments, enrichment hints, embedding text, provenance merging and metadata of a chunk are not modelled; the content that enters its identity is.
- ReadingOrder.InReadingOrder: item text, labels, heading levels, provenance and images of the restructured blocks are field copies and not modelled.
- TableMarkdown.Render: JSON cells carry only the fields the table reads.
- Evaluation.Judge: case IDs, tags, slices and release thresholds are not modelled; a slice is the same aggregate over fewer cases.
- Decodings.BoundedDecodings: the percent and Base64 decoders are arbitrary functions, of which those of PayloadDecoders are one choice; preview text, redaction and the payload's own encoding statistics are not modelled.
- PayloadDecoders.LateLetters: what decoding as UTF-8 with replacement and encoding again makes of a value is a parameter, taken to keep this ASCII value.
- Approvals.InMemoryApprovalStore.ApproveOnce: the JSON and SHA-256 of the fingerprint stand for the payload itself, and the approval ID for the idempotency key.
- HTTP clients, subprocesses, file descriptors, image decoding, directory scanning, prompts, tool decorators, command lines and package wiring: input and output or field copies.
