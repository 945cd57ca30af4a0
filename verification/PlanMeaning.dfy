/** What every action of a plan means (planner.py): how its inputs compare, and the latest stage from which
    reprocessing gives what a full recomputation gives. */
module PlanMeaning {
  import opened Common
  import opened Digest
  import opened Records
  import opened Planner
  import opened Restart
  import opened Replanning
  import opened Synchronizer

  /** The action's inputs: the scanned source and the published document of its ID, or none where there is none. */
  ghost predicate NamesInputs(sources: seq<Source>, manifest: seq<ManifestDocument>, a: SyncAction) {
    && (match a.source
        case Some(s) => s in sources && s.sourceId == a.sourceId && s.relativePath == a.relativePath
        case None => forall s | s in sources :: s.sourceId != a.sourceId)
    && (match a.previous
        case Some(d) => d in manifest && d.sourceId == a.sourceId && d.relativePath == a.relativePath
        case None => forall d | d in manifest :: d.sourceId != a.sourceId)
    && (a.source.Some? || a.previous.Some?)
  }

  /** The kind of change follows from comparing the two. */
  predicate NamesChange(pipeline: Pipeline, a: SyncAction) {
    match (a.source, a.previous)
    case (None, _) => a.change == Deleted
    case (Some(_), None) => a.change == New
    case (Some(s), Some(d)) =>
      && (a.change == Modified <==> s.sha256 != d.contentSha256)
      && (a.change == PipelineChanged <==>
            s.sha256 == d.contentSha256 && (d.pipeline != pipeline || d.chunkCount < 1))
      && (a.change == Unchanged <==>
            s.sha256 == d.contentSha256 && d.pipeline == pipeline && d.chunkCount >= 1)
  }

  /** Where processing starts: at parsing without usable outputs; after a change of pipeline, at the latest
      stage from which every stage chain gives what a full recomputation gives. */
  ghost predicate NamesStart(pipeline: Pipeline, a: SyncAction) {
    match a.change
    case New => a.startStage == ParseStage
    case Modified => a.startStage == ParseStage
    case Deleted => a.startStage == DeleteStage
    case Unchanged => a.startStage == NoStage
    case PipelineChanged =>
      a.source.Some? && a.previous.Some? &&
      var d := a.previous.value;
      if d.pipeline == pipeline then a.startStage == ParseStage
      else
        && StageIndex(a.startStage) < STAGES
        && forall start: nat | start <= STAGES ::
             RestartsRight(ContentOf(a.source.value), d.pipeline, pipeline, start) <==>
             start <= StageIndex(a.startStage)
  }

  lemma SourceInputs(sources: seq<Source>, manifest: seq<ManifestDocument>, pipeline: Pipeline, a: SyncAction)
    requires PathsAgree(sources, manifest) && FromSource(sources, manifest, pipeline, a)
    ensures NamesInputs(sources, manifest, a) && a.source.Some?
  {
  }

  lemma RestartNone(before: Pipeline, after: Pipeline)
    ensures PipelineRestart(before, after) == NoStage <==> before == after
    ensures PipelineRestart(before, after) != NoStage ==> StageIndex(PipelineRestart(before, after)) < STAGES
  {
    RestartFirst(before, after);
  }

  lemma SourceChange(source: Source, previous: Option<ManifestDocument>, pipeline: Pipeline)
    ensures NamesChange(pipeline, Classified(source, previous, pipeline))
  {
    if previous.Some? { RestartNone(previous.value.pipeline, pipeline); }
  }

  lemma SourceStart(source: Source, previous: Option<ManifestDocument>, pipeline: Pipeline)
    ensures NamesStart(pipeline, Classified(source, previous, pipeline))
  {
    if previous.Some? {
      var before := previous.value.pipeline;
      RestartNone(before, pipeline);
      forall start: nat | start <= STAGES
        ensures RestartsRight(ContentOf(source), before, pipeline, start) <==>
                start <= StageIndex(PipelineRestart(before, pipeline))
      {
        RestartLatest(ContentOf(source), before, pipeline, start);
      }
    }
  }

  /** Every action of a plan: its inputs, its kind of change and its start stage. */
  lemma ActionMeaning(
    sources: seq<Source>, manifest: seq<ManifestDocument>, pipeline: Pipeline, actions: seq<SyncAction>, a: SyncAction)
    requires PathsAgree(sources, manifest) && IsPlan(sources, manifest, pipeline, actions) && a in actions
    ensures NamesInputs(sources, manifest, a) && NamesChange(pipeline, a) && NamesStart(pipeline, a)
  {
    assert InPlan(sources, manifest, pipeline, a);
    if FromSource(sources, manifest, pipeline, a) {
      SourceInputs(sources, manifest, pipeline, a);
      SourceChange(a.source.value, a.previous, pipeline);
      SourceStart(a.source.value, a.previous, pipeline);
    }
  }

  /** Every ID of either input has an action, and the actions come in path order. */
  lemma PlanCovers(
    sources: seq<Source>, manifest: seq<ManifestDocument>, pipeline: Pipeline, actions: seq<SyncAction>, id: string)
    requires IsPlan(sources, manifest, pipeline, actions)
    ensures (exists a | a in actions :: a.sourceId == id) <==>
            (exists s | s in sources :: s.sourceId == id) || exists d | d in manifest :: d.sourceId == id
    ensures forall i, j | 0 <= i < j < |actions| :: !StrLess(actions[j].relativePath, actions[i].relativePath)
  {
    if a :| a in actions && a.sourceId == id { assert InPlan(sources, manifest, pipeline, a); }
    if s :| s in sources && s.sourceId == id {
      var a := SourceAction(sources, manifest, pipeline, s);
      assert InPlan(sources, manifest, pipeline, a) && a in actions;
    } else if d :| d in manifest && d.sourceId == id {
      assert FromRemoval(sources, manifest, Removal(d)) && InPlan(sources, manifest, pipeline, Removal(d));
      assert Removal(d) in actions;
    }
    forall i, j | 0 <= i < j < |actions| ensures !StrLess(actions[j].relativePath, actions[i].relativePath) {
      assert ByPath()(actions[i], actions[j]);
      StrTrichotomy(actions[i].relativePath, actions[j].relativePath);
    }
  }

  lemma SourceAction(sources: seq<Source>, manifest: seq<ManifestDocument>, pipeline: Pipeline, s: Source)
    returns (a: SyncAction)
    requires s in sources
    ensures FromSource(sources, manifest, pipeline, a) && a.sourceId == s.sourceId
  {
    if d :| d in manifest && d.sourceId == s.sourceId {
      a := Classified(s, Some(d), pipeline);
    } else {
      a := Classified(s, None, pipeline);
    }
  }

  /** A generation is published, the pipeline fixes a vector size, and a document was embedded in another. */
  ghost predicate SizeChanges(actions: seq<SyncAction>, pipeline: Pipeline, active: bool) {
    && active && pipeline.dimension != None
    && exists a | a in actions :: a.previous.Some? && a.previous.value.pipeline.dimension != pipeline.dimension
  }

  /** What there is to do: the plan; but when the vector size changes, every source that would start later
      is embedded again. Removals and earlier starts stay as planned. */
  lemma TodoMeaning(actions: seq<SyncAction>, pipeline: Pipeline, active: bool, i: nat)
    requires i < |actions|
    ensures |Todo(actions, pipeline, active)| == |actions|
    ensures var a, todo := actions[i], Todo(actions, pipeline, active)[i];
      if SizeChanges(actions, pipeline, active) && a.source.Some? && StageIndex(a.startStage) > StageIndex(EmbedStage)
      then todo == a.(change := PipelineChanged, startStage := EmbedStage)
      else todo == a
  {
  }

  /** A forced rebuild names its inputs as a plan does, starts every source at parsing and removes every
      document without a source. */
  lemma RebuildMeaning(
    sources: seq<Source>, manifest: seq<ManifestDocument>, actions: seq<SyncAction>, a: SyncAction)
    requires PathsAgree(sources, manifest) && IsRebuild(sources, manifest, actions) && a in actions
    ensures NamesInputs(sources, manifest, a)
    ensures a.source.Some? ==> a.change == PipelineChanged && a.startStage == ParseStage
    ensures a.source.None? ==> a.change == Deleted && a.startStage == DeleteStage
  {
    assert FromRebuild(sources, manifest, a) || FromRemoval(sources, manifest, a);
  }
}
