/** The incremental planner (planner.py): every source of either input gets one action, at the
    earliest stage its cached outputs do not cover. */
module Planner {
  import opened Common
  import opened Digest
  import opened Records

  datatype ChangeKind = New | Modified | PipelineChanged | Deleted | Unchanged

  datatype Stage =
    | ParseStage | RestructureStage | RefineLayoutStage | EnrichStage | ChunkStage | EmbedStage | IndexStage
    | DeleteStage | NoStage

  datatype SyncAction = SyncAction(
    sourceId: string,
    relativePath: string,
    change: ChangeKind,
    startStage: Stage,
    source: Option<Source>,
    previous: Option<ManifestDocument>)

  datatype SyncPlan = SyncPlan(kbId: string, pipeline: Pipeline, actions: seq<SyncAction>)

  // ----- one source

  /** `_pipeline_restart`: the first fingerprint that differs names the stage. */
  function PipelineRestart(before: Pipeline, after: Pipeline): Stage {
    if before.parser != after.parser then ParseStage
    else if before.restructuring != after.restructuring then RestructureStage
    else if before.layout != after.layout then RefineLayoutStage
    else if before.enrichment != after.enrichment then EnrichStage
    else if before.chunking != after.chunking then ChunkStage
    else if before.embedding != after.embedding then EmbedStage
    else if before.dimension != after.dimension then EmbedStage
    else if before.indexing != after.indexing then IndexStage
    else NoStage
  }

  function Action(source: Source, change: ChangeKind, stage: Stage, previous: Option<ManifestDocument>): SyncAction {
    SyncAction(source.sourceId, source.relativePath, change, stage, Some(source), previous)
  }

  /** The action of a scanned source whose published path, if any, agrees. */
  function Classified(source: Source, previous: Option<ManifestDocument>, pipeline: Pipeline): SyncAction {
    if previous.None? then Action(source, New, ParseStage, None)
    else
      var document := previous.value;
      if document.contentSha256 != source.sha256 then Action(source, Modified, ParseStage, previous)
      else
        var stage := PipelineRestart(document.pipeline, pipeline);
        if stage != NoStage then Action(source, PipelineChanged, stage, previous)
        else if document.chunkCount < 1 then Action(source, PipelineChanged, ParseStage, previous)
        else Action(source, Unchanged, NoStage, previous)
  }

  function Removal(document: ManifestDocument): SyncAction {
    SyncAction(document.sourceId, document.relativePath, Deleted, DeleteStage, None, Some(document))
  }

  // ----- what a plan is

  predicate UniqueSources(sources: seq<Source>) {
    forall i, j | 0 <= i < j < |sources| ::
      sources[i].sourceId != sources[j].sourceId && sources[i].relativePath != sources[j].relativePath
  }

  predicate UniqueDocuments(manifest: seq<ManifestDocument>) {
    forall i, j | 0 <= i < j < |manifest| ::
      manifest[i].sourceId != manifest[j].sourceId && manifest[i].relativePath != manifest[j].relativePath
  }

  function KnowledgeBases(sources: seq<Source>, manifest: seq<ManifestDocument>, kbId: Option<string>): set<string> {
    (set s | s in sources :: s.kbId) + (set d | d in manifest :: d.kbId) + if kbId.Some? then {kbId.value} else {}
  }

  ghost predicate PathsAgree(sources: seq<Source>, manifest: seq<ManifestDocument>) {
    forall s, d | s in sources && d in manifest && s.sourceId == d.sourceId :: s.relativePath == d.relativePath
  }

  /** The inputs the planner accepts. */
  ghost predicate PlanAccepted(sources: seq<Source>, manifest: seq<ManifestDocument>, kbId: Option<string>) {
    && (exists kb :: kb != "" && KnowledgeBases(sources, manifest, kbId) == {kb})
    && UniqueSources(sources) && UniqueDocuments(manifest) && PathsAgree(sources, manifest)
  }

  predicate Holds(manifest: seq<ManifestDocument>, sourceId: string, previous: Option<ManifestDocument>) {
    if previous.Some? then previous.value in manifest && previous.value.sourceId == sourceId
    else forall d | d in manifest :: d.sourceId != sourceId
  }

  ghost predicate FromSource(sources: seq<Source>, manifest: seq<ManifestDocument>, pipeline: Pipeline, a: SyncAction) {
    && a.source.Some? && a.source.value in sources
    && Holds(manifest, a.source.value.sourceId, a.previous)
    && a == Classified(a.source.value, a.previous, pipeline)
  }

  ghost predicate FromRemoval(sources: seq<Source>, manifest: seq<ManifestDocument>, a: SyncAction) {
    && a.previous.Some? && a.previous.value in manifest
    && (forall s | s in sources :: s.sourceId != a.previous.value.sourceId)
    && a == Removal(a.previous.value)
  }

  ghost predicate InPlan(sources: seq<Source>, manifest: seq<ManifestDocument>, pipeline: Pipeline, a: SyncAction) {
    FromSource(sources, manifest, pipeline, a) || FromRemoval(sources, manifest, a)
  }

  predicate Before(a: SyncAction, b: SyncAction) {
    StrLess(a.relativePath, b.relativePath) || (a.relativePath == b.relativePath && StrLess(a.sourceId, b.sourceId))
  }

  function ByPath(): (SyncAction, SyncAction) -> bool {
    (a: SyncAction, b: SyncAction) => Before(a, b)
  }

  ghost predicate IsPlan(
    sources: seq<Source>, manifest: seq<ManifestDocument>, pipeline: Pipeline, actions: seq<SyncAction>)
  {
    Strictly(actions, ByPath()) && forall a :: a in actions <==> InPlan(sources, manifest, pipeline, a)
  }

  // ----- the planner

  lemma ByPathStrict()
    ensures Asymmetric(ByPath()) && StrictWeak(ByPath())
  {
    forall a: SyncAction, b: SyncAction | Before(a, b) ensures !Before(b, a) {
      StrTrichotomy(a.relativePath, b.relativePath);
      StrTrichotomy(a.sourceId, b.sourceId);
    }
    forall a: SyncAction, b: SyncAction, c: SyncAction | !Before(b, a) && !Before(c, b) ensures !Before(c, a) {
      BeforeChain(a, b, c);
    }
  }

  lemma BeforeChain(a: SyncAction, b: SyncAction, c: SyncAction)
    requires !Before(b, a) && !Before(c, b)
    ensures !Before(c, a)
  {
    StrTrichotomy(a.relativePath, b.relativePath);
    StrTrichotomy(b.relativePath, c.relativePath);
    StrTrichotomy(a.relativePath, c.relativePath);
    StrTrichotomy(a.sourceId, b.sourceId);
    StrTrichotomy(b.sourceId, c.sourceId);
    StrTrichotomy(a.sourceId, c.sourceId);
    if StrLess(a.relativePath, b.relativePath) && StrLess(b.relativePath, c.relativePath) {
      StrTransitive(a.relativePath, b.relativePath, c.relativePath);
    }
    if StrLess(a.sourceId, b.sourceId) && StrLess(b.sourceId, c.sourceId) {
      StrTransitive(a.sourceId, b.sourceId, c.sourceId);
    }
  }

  /** Sorting actions with different IDs gives a strictly sorted list. */
  lemma SortedActions(actions: seq<SyncAction>)
    requires IdsDiffer(actions)
    ensures Strictly(Sorted(actions, ByPath()), ByPath())
  {
    ByPathStrict();
    SortedAscends(actions, ByPath());
    var r := Sorted(actions, ByPath());
    forall i, j | 0 <= i < j < |actions| ensures actions[i] != actions[j] {
      assert actions[i].sourceId != actions[j].sourceId;
    }
    MultisetDistinct(actions, r);
    forall i, j | 0 <= i < j < |r| ensures ByPath()(r[i], r[j]) {
      assert !ByPath()(r[j], r[i]);
      assert r[i] != r[j] && r[i] in Elements(actions) && r[j] in Elements(actions);
      StrTrichotomy(r[i].relativePath, r[j].relativePath);
      StrTrichotomy(r[i].sourceId, r[j].sourceId);
    }
  }

  ghost predicate IndexesSources(current: map<string, Source>, sources: seq<Source>) {
    && UniqueSources(sources)
    && (forall s | s in sources :: s.sourceId in current && current[s.sourceId] == s)
    && forall id | id in current :: current[id] in sources && current[id].sourceId == id
  }

  ghost predicate IndexesDocuments(previous: map<string, ManifestDocument>, manifest: seq<ManifestDocument>) {
    && UniqueDocuments(manifest)
    && (forall d | d in manifest :: d.sourceId in previous && previous[d.sourceId] == d)
    && forall id | id in previous :: previous[id] in manifest && previous[id].sourceId == id
  }

  function SourcePaths(sources: seq<Source>): set<string> {
    set s | s in sources :: s.relativePath
  }

  function DocumentPaths(manifest: seq<ManifestDocument>): set<string> {
    set d | d in manifest :: d.relativePath
  }

  lemma SourcesSnoc(current: map<string, Source>, sources: seq<Source>, s: Source)
    requires IndexesSources(current, sources)
    ensures SourcePaths(sources + [s]) == SourcePaths(sources) + {s.relativePath}
    ensures s.sourceId in current || s.relativePath in SourcePaths(sources) <==> !UniqueSources(sources + [s])
    ensures UniqueSources(sources + [s]) ==> IndexesSources(current[s.sourceId := s], sources + [s])
  {
    var longer := sources + [s];
    assert longer[|sources|] == s && forall i | 0 <= i < |sources| :: longer[i] == sources[i];
    assert forall x :: x in longer <==> x in sources || x == s;
    if s.sourceId in current {
      var i :| 0 <= i < |sources| && sources[i] == current[s.sourceId];
      assert longer[i].sourceId == longer[|sources|].sourceId;
    } else if s.relativePath in SourcePaths(sources) {
      var i :| 0 <= i < |sources| && sources[i].relativePath == s.relativePath;
      assert longer[i].relativePath == longer[|sources|].relativePath;
    }
  }

  lemma DocumentsSnoc(previous: map<string, ManifestDocument>, manifest: seq<ManifestDocument>, d: ManifestDocument)
    requires IndexesDocuments(previous, manifest)
    ensures DocumentPaths(manifest + [d]) == DocumentPaths(manifest) + {d.relativePath}
    ensures d.sourceId in previous || d.relativePath in DocumentPaths(manifest) <==> !UniqueDocuments(manifest + [d])
    ensures UniqueDocuments(manifest + [d]) ==> IndexesDocuments(previous[d.sourceId := d], manifest + [d])
  {
    var longer := manifest + [d];
    assert longer[|manifest|] == d && forall i | 0 <= i < |manifest| :: longer[i] == manifest[i];
    assert forall x :: x in longer <==> x in manifest || x == d;
    if d.sourceId in previous {
      var i :| 0 <= i < |manifest| && manifest[i] == previous[d.sourceId];
      assert longer[i].sourceId == longer[|manifest|].sourceId;
    } else if d.relativePath in DocumentPaths(manifest) {
      var i :| 0 <= i < |manifest| && manifest[i].relativePath == d.relativePath;
      assert longer[i].relativePath == longer[|manifest|].relativePath;
    }
  }

  method IndexSources(sources: seq<Source>) returns (ok: bool, current: map<string, Source>)
    ensures ok <==> UniqueSources(sources)
    ensures ok ==> IndexesSources(current, sources)
  {
    ok, current := true, map[];
    var paths: set<string> := {};
    var i := 0;
    while i < |sources| && ok
      invariant 0 <= i <= |sources|
      invariant ok ==> IndexesSources(current, sources[..i]) && paths == SourcePaths(sources[..i])
      invariant ok <==> UniqueSources(sources[..i])
    {
      var source := sources[i];
      SourcesSnoc(current, sources[..i], source);
      assert sources[..i + 1] == sources[..i] + [source];
      ok := !(source.sourceId in current || source.relativePath in paths);
      current := current[source.sourceId := source];
      paths := paths + {source.relativePath};
      i := i + 1;
    }
    if ok { assert sources[..i] == sources; }
  }

  method IndexDocuments(manifest: seq<ManifestDocument>) returns (ok: bool, previous: map<string, ManifestDocument>)
    ensures ok <==> UniqueDocuments(manifest)
    ensures ok ==> IndexesDocuments(previous, manifest)
  {
    ok, previous := true, map[];
    var paths: set<string> := {};
    var i := 0;
    while i < |manifest| && ok
      invariant 0 <= i <= |manifest|
      invariant ok ==> IndexesDocuments(previous, manifest[..i]) && paths == DocumentPaths(manifest[..i])
      invariant ok <==> UniqueDocuments(manifest[..i])
    {
      var document := manifest[i];
      DocumentsSnoc(previous, manifest[..i], document);
      assert manifest[..i + 1] == manifest[..i] + [document];
      ok := !(document.sourceId in previous || document.relativePath in paths);
      previous := previous[document.sourceId := document];
      paths := paths + {document.relativePath};
      i := i + 1;
    }
    if ok { assert manifest[..i] == manifest; }
  }

  function Lookup(previous: map<string, ManifestDocument>, sourceId: string): Option<ManifestDocument> {
    if sourceId in previous then Some(previous[sourceId]) else None
  }

  function Classifying(previous: map<string, ManifestDocument>, pipeline: Pipeline): Source -> SyncAction {
    (s: Source) => Classified(s, Lookup(previous, s.sourceId), pipeline)
  }

  function SourceActions(
    sources: seq<Source>, previous: map<string, ManifestDocument>, pipeline: Pipeline): seq<SyncAction>
  {
    Map(sources, Classifying(previous, pipeline))
  }

  ghost predicate PathsMatch(sources: seq<Source>, previous: map<string, ManifestDocument>) {
    forall s | s in sources :: s.sourceId in previous ==> previous[s.sourceId].relativePath == s.relativePath
  }

  /** The loop over the scanned sources. */
  method ClassifySources(sources: seq<Source>, previous: map<string, ManifestDocument>, pipeline: Pipeline)
    returns (ok: bool, actions: seq<SyncAction>)
    ensures ok <==> PathsMatch(sources, previous)
    ensures ok ==> actions == SourceActions(sources, previous, pipeline)
  {
    ok, actions := true, [];
    var i := 0;
    while i < |sources| && ok
      invariant 0 <= i <= |sources| && (ok ==> |actions| == i)
      invariant ok ==> forall j | 0 <= j < i ::
        actions[j] == Classified(sources[j], Lookup(previous, sources[j].sourceId), pipeline)
      invariant ok ==> PathsMatch(sources[..i], previous)
      invariant !ok ==> !PathsMatch(sources, previous)
    {
      var source := sources[i];
      var document := Lookup(previous, source.sourceId);
      if document.None? {
        actions := actions + [Action(source, New, ParseStage, None)];
      } else if document.value.relativePath != source.relativePath {
        ok := false;
      } else if document.value.contentSha256 != source.sha256 {
        actions := actions + [Action(source, Modified, ParseStage, document)];
      } else {
        var stage := PipelineRestart(document.value.pipeline, pipeline);
        if stage != NoStage {
          actions := actions + [Action(source, PipelineChanged, stage, document)];
        } else if document.value.chunkCount < 1 {
          actions := actions + [Action(source, PipelineChanged, ParseStage, document)];
        } else {
          actions := actions + [Action(source, Unchanged, NoStage, document)];
        }
      }
      assert sources[..i + 1] == sources[..i] + [source];
      i := i + 1;
    }
    if ok { assert sources[..i] == sources; }
  }

  function Missing(current: map<string, Source>): ManifestDocument -> bool {
    (d: ManifestDocument) => d.sourceId !in current
  }

  function Removing(): ManifestDocument -> SyncAction {
    (d: ManifestDocument) => Removal(d)
  }

  function RemovalActions(manifest: seq<ManifestDocument>, current: map<string, Source>): seq<SyncAction> {
    Map(Filter(manifest, Missing(current)), Removing())
  }

  lemma RemovalsSnoc(manifest: seq<ManifestDocument>, d: ManifestDocument, current: map<string, Source>)
    ensures RemovalActions(manifest + [d], current)
         == RemovalActions(manifest, current) + if d.sourceId !in current then [Removal(d)] else []
  {
    FilterSnoc(manifest, d, Missing(current));
    if d.sourceId !in current { MapConcat(Filter(manifest, Missing(current)), [d], Removing()); }
  }

  /** The loop over the published documents. */
  method RemoveMissing(manifest: seq<ManifestDocument>, current: map<string, Source>)
    returns (actions: seq<SyncAction>)
    ensures actions == RemovalActions(manifest, current)
  {
    actions := [];
    var i := 0;
    while i < |manifest|
      invariant 0 <= i <= |manifest|
      invariant actions == RemovalActions(manifest[..i], current)
    {
      assert manifest[..i + 1] == manifest[..i] + [manifest[i]];
      RemovalsSnoc(manifest[..i], manifest[i], current);
      if manifest[i].sourceId !in current { actions := actions + [Removal(manifest[i])]; }
      i := i + 1;
    }
    assert manifest[..i] == manifest;
  }

  lemma RemovalMembers(manifest: seq<ManifestDocument>, current: map<string, Source>, a: SyncAction)
    ensures a in RemovalActions(manifest, current) <==>
      a.previous.Some? && a.previous.value in manifest && a.previous.value.sourceId !in current &&
        a == Removal(a.previous.value)
  {
    var kept := Filter(manifest, Missing(current));
    var r := RemovalActions(manifest, current);
    if a in r {
      var i :| 0 <= i < |r| && r[i] == a;
      FilterKeeps(manifest, Missing(current), kept[i]);
    }
    if a.previous.Some? && a.previous.value in manifest && a.previous.value.sourceId !in current &&
      a == Removal(a.previous.value) {
      FilterKeeps(manifest, Missing(current), a.previous.value);
      var i :| 0 <= i < |kept| && kept[i] == a.previous.value;
      assert r[i] == a;
    }
  }

  lemma LookupHolds(
    manifest: seq<ManifestDocument>, previous: map<string, ManifestDocument>, sourceId: string,
    d: Option<ManifestDocument>)
    requires IndexesDocuments(previous, manifest)
    ensures Holds(manifest, sourceId, d) <==> d == Lookup(previous, sourceId)
  {
    if d.Some? && d.value in manifest && d.value.sourceId == sourceId { assert previous[d.value.sourceId] == d.value; }
  }

  lemma ClassifiedKeeps(s: Source, previous: Option<ManifestDocument>, pipeline: Pipeline)
    ensures var a := Classified(s, previous, pipeline);
      a.source == Some(s) && a.previous == previous && a.sourceId == s.sourceId && a.relativePath == s.relativePath
  {
  }

  lemma SourceMembers(
    sources: seq<Source>, manifest: seq<ManifestDocument>, previous: map<string, ManifestDocument>, pipeline: Pipeline,
    a: SyncAction)
    requires IndexesDocuments(previous, manifest)
    ensures a in SourceActions(sources, previous, pipeline) <==> FromSource(sources, manifest, pipeline, a)
  {
    var f := Classifying(previous, pipeline);
    MapMember(sources, f, a);
    if a in SourceActions(sources, previous, pipeline) {
      var s :| s in sources && f(s) == a;
      ClassifiedKeeps(s, Lookup(previous, s.sourceId), pipeline);
      LookupHolds(manifest, previous, s.sourceId, a.previous);
    }
    if FromSource(sources, manifest, pipeline, a) {
      var s := a.source.value;
      LookupHolds(manifest, previous, s.sourceId, a.previous);
      assert f(s) == a;
    }
  }

  lemma MissingMeans(sources: seq<Source>, current: map<string, Source>, sourceId: string)
    requires IndexesSources(current, sources)
    ensures sourceId !in current <==> forall s | s in sources :: s.sourceId != sourceId
  {
    if sourceId in current { assert current[sourceId] in sources; }
  }

  lemma ActionMembers(
    sources: seq<Source>, manifest: seq<ManifestDocument>, current: map<string, Source>,
    previous: map<string, ManifestDocument>, pipeline: Pipeline, a: SyncAction)
    requires IndexesSources(current, sources) && IndexesDocuments(previous, manifest)
    ensures a in SourceActions(sources, previous, pipeline) + RemovalActions(manifest, current)
       <==> InPlan(sources, manifest, pipeline, a)
  {
    SourceMembers(sources, manifest, previous, pipeline, a);
    RemovalMembers(manifest, current, a);
    if a.previous.Some? { MissingMeans(sources, current, a.previous.value.sourceId); }
  }

  lemma RemovalIds(manifest: seq<ManifestDocument>, current: map<string, Source>)
    requires UniqueDocuments(manifest)
    ensures var r := RemovalActions(manifest, current);
      && (forall i | 0 <= i < |r| :: r[i].sourceId !in current)
      && forall i, j | 0 <= i < j < |r| :: r[i].sourceId != r[j].sourceId
  {
    var kept := Filter(manifest, Missing(current));
    FilterDistinct(manifest, Missing(current));
    forall i, j | 0 <= i < j < |kept| ensures kept[i].sourceId != kept[j].sourceId {
      assert kept[i] in manifest && kept[j] in manifest && kept[i] != kept[j];
    }
  }

  ghost predicate IdsDiffer(actions: seq<SyncAction>) {
    forall i, j | 0 <= i < j < |actions| :: actions[i].sourceId != actions[j].sourceId
  }

  lemma SourceIds(
    sources: seq<Source>, current: map<string, Source>, previous: map<string, ManifestDocument>, pipeline: Pipeline)
    requires IndexesSources(current, sources)
    ensures var r := SourceActions(sources, previous, pipeline);
      IdsDiffer(r) && forall i | 0 <= i < |r| :: r[i].sourceId in current
  {
    var r := SourceActions(sources, previous, pipeline);
    forall i | 0 <= i < |r| ensures r[i].sourceId == sources[i].sourceId && r[i].sourceId in current {
      ClassifiedKeeps(sources[i], Lookup(previous, sources[i].sourceId), pipeline);
      assert sources[i] in sources;
    }
    forall i, j | 0 <= i < j < |r| ensures r[i].sourceId != r[j].sourceId {
      assert sources[i].sourceId != sources[j].sourceId;
    }
  }

  lemma ConcatIds(a: seq<SyncAction>, b: seq<SyncAction>, ids: set<string>)
    requires IdsDiffer(a) && IdsDiffer(b)
    requires forall i | 0 <= i < |a| :: a[i].sourceId in ids
    requires forall i | 0 <= i < |b| :: b[i].sourceId !in ids
    ensures IdsDiffer(a + b)
  {
    forall i, j | 0 <= i < j < |a + b| ensures (a + b)[i].sourceId != (a + b)[j].sourceId {
      if i < |a| <= j {
        assert a[i].sourceId in ids && b[j - |a|].sourceId !in ids;
      } else if |a| <= i {
        assert b[i - |a|].sourceId != b[j - |a|].sourceId;
      }
    }
  }

  lemma ActionIds(
    sources: seq<Source>, manifest: seq<ManifestDocument>, current: map<string, Source>,
    previous: map<string, ManifestDocument>, pipeline: Pipeline)
    requires IndexesSources(current, sources) && UniqueDocuments(manifest)
    ensures IdsDiffer(SourceActions(sources, previous, pipeline) + RemovalActions(manifest, current))
  {
    SourceIds(sources, current, previous, pipeline);
    RemovalIds(manifest, current);
    ConcatIds(SourceActions(sources, previous, pipeline), RemovalActions(manifest, current), current.Keys);
  }

  lemma PathsMean(sources: seq<Source>, manifest: seq<ManifestDocument>, previous: map<string, ManifestDocument>)
    requires IndexesDocuments(previous, manifest)
    ensures PathsMatch(sources, previous) <==> PathsAgree(sources, manifest)
  {
    if PathsMatch(sources, previous) {
      forall s, d | s in sources && d in manifest && s.sourceId == d.sourceId ensures s.relativePath == d.relativePath {
        assert previous[d.sourceId] == d;
      }
    }
  }

  lemma SortedIsPlan(
    sources: seq<Source>, manifest: seq<ManifestDocument>, current: map<string, Source>,
    previous: map<string, ManifestDocument>, pipeline: Pipeline)
    requires IndexesSources(current, sources) && IndexesDocuments(previous, manifest)
    ensures IsPlan(sources, manifest, pipeline,
                   Sorted(SourceActions(sources, previous, pipeline) + RemovalActions(manifest, current), ByPath()))
  {
    var actions := SourceActions(sources, previous, pipeline) + RemovalActions(manifest, current);
    var r := Sorted(actions, ByPath());
    ActionIds(sources, manifest, current, previous, pipeline);
    SortedActions(actions);
    forall a ensures a in r <==> InPlan(sources, manifest, pipeline, a) {
      ActionMembers(sources, manifest, current, previous, pipeline, a);
      assert a in r <==> a in multiset(r);
      assert a in actions <==> a in multiset(actions);
    }
  }

  lemma {:induction false} SourcesIndexed(sources: seq<Source>) returns (current: map<string, Source>)
    requires UniqueSources(sources)
    ensures IndexesSources(current, sources)
  {
    if sources == [] {
      current := map[];
    } else {
      var n := |sources| - 1;
      var earlier := SourcesIndexed(sources[..n]);
      assert sources == sources[..n] + [sources[n]];
      SourcesSnoc(earlier, sources[..n], sources[n]);
      current := earlier[sources[n].sourceId := sources[n]];
    }
  }

  lemma {:induction false} DocumentsIndexed(
    manifest: seq<ManifestDocument>) returns (previous: map<string, ManifestDocument>)
    requires UniqueDocuments(manifest)
    ensures IndexesDocuments(previous, manifest)
  {
    if manifest == [] {
      previous := map[];
    } else {
      var n := |manifest| - 1;
      var earlier := DocumentsIndexed(manifest[..n]);
      assert manifest == manifest[..n] + [manifest[n]];
      DocumentsSnoc(earlier, manifest[..n], manifest[n]);
      previous := earlier[manifest[n].sourceId := manifest[n]];
    }
  }

  /** Accepted inputs have a plan. */
  lemma PlanExists(
    sources: seq<Source>, manifest: seq<ManifestDocument>, pipeline: Pipeline) returns (actions: seq<SyncAction>)
    requires UniqueSources(sources) && UniqueDocuments(manifest)
    ensures IsPlan(sources, manifest, pipeline, actions)
  {
    var current := SourcesIndexed(sources);
    var previous := DocumentsIndexed(manifest);
    SortedIsPlan(sources, manifest, current, previous, pipeline);
    actions := Sorted(SourceActions(sources, previous, pipeline) + RemovalActions(manifest, current), ByPath());
  }

  /** `plan_incremental_sync`. */
  method PlanIncrementalSync(
    sources: seq<Source>, manifest: seq<ManifestDocument>, pipeline: Pipeline, kbId: Option<string>)
    returns (r: Result<SyncPlan>)
    ensures r.Ok? <==> PlanAccepted(sources, manifest, kbId)
    ensures r.Ok? ==> r.value.pipeline == pipeline && KnowledgeBases(sources, manifest, kbId) == {r.value.kbId}
    ensures r.Ok? ==> IsPlan(sources, manifest, pipeline, r.value.actions)
  {
    var kbs := KnowledgeBases(sources, manifest, kbId);
    if kbs == {} {
      return Err("kb_id is required when both inputs are empty");
    }
    var kb :| kb in kbs;
    if kbs != {kb} {
      return Err("sync inputs must belong to one knowledge base");
    }
    if kb == "" {
      return Err("kb_id is required when both inputs are empty");
    }
    var sourcesOk, current := IndexSources(sources);
    var manifestOk, previous := IndexDocuments(manifest);
    if !sourcesOk || !manifestOk {
      return Err("inputs contain duplicate identities");
    }
    var pathsOk, actions := ClassifySources(sources, previous, pipeline);
    PathsMean(sources, manifest, previous);
    if !pathsOk {
      return Err("source ID and relative path do not agree");
    }
    var removals := RemoveMissing(manifest, current);
    SortedIsPlan(sources, manifest, current, previous, pipeline);
    r := Ok(SyncPlan(kb, pipeline, Sorted(actions + removals, ByPath())));
  }

  // ----- what the plan guarantees

  /** The plan does not depend on the order of either input. */
  lemma PlanOrderIndependent(
    sources: seq<Source>, manifest: seq<ManifestDocument>, sources': seq<Source>, manifest': seq<ManifestDocument>,
    pipeline: Pipeline, actions: seq<SyncAction>, actions': seq<SyncAction>)
    requires multiset(sources) == multiset(sources') && multiset(manifest) == multiset(manifest')
    requires IsPlan(sources, manifest, pipeline, actions) && IsPlan(sources', manifest', pipeline, actions')
    ensures actions == actions'
  {
    forall s ensures s in sources <==> s in sources' { assert s in multiset(sources) <==> s in multiset(sources'); }
    forall d ensures d in manifest <==> d in manifest' { assert d in multiset(manifest) <==> d in multiset(manifest'); }
    forall a ensures a in Elements(actions) <==> a in Elements(actions') {
      assert a in actions <==> InPlan(sources, manifest, pipeline, a);
      assert a in actions' <==> InPlan(sources', manifest', pipeline, a);
      SamePlanned(sources, manifest, sources', manifest', pipeline, a);
    }
    ByPathStrict();
    StrictlyUnique(actions, actions', ByPath());
  }

  lemma SamePlanned(
    sources: seq<Source>, manifest: seq<ManifestDocument>, sources': seq<Source>, manifest': seq<ManifestDocument>,
    pipeline: Pipeline, a: SyncAction)
    requires forall s :: s in sources <==> s in sources'
    requires forall d :: d in manifest <==> d in manifest'
    ensures InPlan(sources, manifest, pipeline, a) <==> InPlan(sources', manifest', pipeline, a)
  {
  }

  /** Every ID of either input has exactly one action, and nothing else has one. */
  lemma OneActionPerId(
    sources: seq<Source>, manifest: seq<ManifestDocument>, pipeline: Pipeline, actions: seq<SyncAction>)
    requires UniqueSources(sources) && UniqueDocuments(manifest) && IsPlan(sources, manifest, pipeline, actions)
    ensures forall a, b | a in actions && b in actions && a.sourceId == b.sourceId :: a == b
    ensures forall s | s in sources :: exists a :: a in actions && a.source == Some(s) && a.sourceId == s.sourceId
    ensures forall d | d in manifest :: exists a :: a in actions && a.previous == Some(d) && a.sourceId == d.sourceId
    ensures forall a | a in actions ::
      (exists s :: s in sources && s.sourceId == a.sourceId) || (exists d :: d in manifest && d.sourceId == a.sourceId)
  {
    forall s | s in sources ensures exists a :: a in actions && a.source == Some(s) && a.sourceId == s.sourceId {
      var a := PlannedSource(sources, manifest, pipeline, actions, s);
    }
    forall d | d in manifest ensures exists a :: a in actions && a.previous == Some(d) && a.sourceId == d.sourceId {
      if s :| s in sources && s.sourceId == d.sourceId {
        var a := PlannedSource(sources, manifest, pipeline, actions, s);
        HoldsOne(manifest, s.sourceId, a.previous, d);
      } else {
        assert FromRemoval(sources, manifest, Removal(d));
        assert InPlan(sources, manifest, pipeline, Removal(d));
      }
    }
    forall a, b | a in actions && b in actions && a.sourceId == b.sourceId ensures a == b {
      assert InPlan(sources, manifest, pipeline, a) && InPlan(sources, manifest, pipeline, b);
      SameIdSameAction(sources, manifest, pipeline, a, b);
    }
    forall a | a in actions
      ensures (exists s :: s in sources && s.sourceId == a.sourceId) ||
        (exists d :: d in manifest && d.sourceId == a.sourceId)
    {
      assert InPlan(sources, manifest, pipeline, a);
    }
  }

  lemma PlannedSource(
    sources: seq<Source>, manifest: seq<ManifestDocument>, pipeline: Pipeline, actions: seq<SyncAction>, s: Source)
    returns (a: SyncAction)
    requires s in sources && IsPlan(sources, manifest, pipeline, actions)
    ensures a in actions && a.source == Some(s) && a.sourceId == s.sourceId && Holds(manifest, s.sourceId, a.previous)
    ensures a == Classified(s, a.previous, pipeline)
  {
    var previous: Option<ManifestDocument> := None;
    if d :| d in manifest && d.sourceId == s.sourceId { previous := Some(d); }
    a := Classified(s, previous, pipeline);
    assert FromSource(sources, manifest, pipeline, a);
    assert InPlan(sources, manifest, pipeline, a);
  }

  lemma HoldsOne(
    manifest: seq<ManifestDocument>, sourceId: string, previous: Option<ManifestDocument>, d: ManifestDocument)
    requires UniqueDocuments(manifest) && Holds(manifest, sourceId, previous) && d in manifest && d.sourceId == sourceId
    ensures previous == Some(d)
  {
    var i :| 0 <= i < |manifest| && manifest[i] == d;
    if previous.Some? {
      var j :| 0 <= j < |manifest| && manifest[j] == previous.value;
    }
  }

  lemma SameIdSameAction(
    sources: seq<Source>, manifest: seq<ManifestDocument>, pipeline: Pipeline, a: SyncAction, b: SyncAction)
    requires UniqueSources(sources) && UniqueDocuments(manifest) && a.sourceId == b.sourceId
    requires InPlan(sources, manifest, pipeline, a) && InPlan(sources, manifest, pipeline, b)
    ensures a == b
  {
    if FromSource(sources, manifest, pipeline, a) && FromSource(sources, manifest, pipeline, b) {
      var i :| 0 <= i < |sources| && sources[i] == a.source.value;
      var j :| 0 <= j < |sources| && sources[j] == b.source.value;
      assert i == j;
      if a.previous.Some? { HoldsOne(manifest, a.sourceId, b.previous, a.previous.value); }
    } else if FromRemoval(sources, manifest, a) && FromRemoval(sources, manifest, b) {
      HoldsOne(manifest, a.sourceId, a.previous, b.previous.value);
    }
  }
}
