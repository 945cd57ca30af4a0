/** Restarting where `_pipeline_restart` says (planner.py) against recomputing everything. A stage is
    any function of the source, the outputs of the earlier stages and the fingerprints up to its own. */
module Restart {
  import opened Common
  import opened Digest
  import opened Records
  import opened Planner

  /** What one stage is configured by; embedding is configured by its model and its dimension. */
  datatype Fingerprint =
    | Named(name: string)
    | Optional(layout: Option<string>)
    | Embedding(name: string, dimension: Option<int>)

  const STAGES: nat := 7

  function FingerprintAt(p: Pipeline, i: nat): Fingerprint
    requires i < STAGES
  {
    if i == 0 then Named(p.parser)
    else if i == 1 then Named(p.restructuring)
    else if i == 2 then Optional(p.layout)
    else if i == 3 then Named(p.enrichment)
    else if i == 4 then Named(p.chunking)
    else if i == 5 then Embedding(p.embedding, p.dimension)
    else Named(p.indexing)
  }

  function StageIndex(stage: Stage): nat {
    match stage
    case ParseStage => 0
    case RestructureStage => 1
    case RefineLayoutStage => 2
    case EnrichStage => 3
    case ChunkStage => 4
    case EmbedStage => 5
    case IndexStage => 6
    case _ => STAGES
  }

  /** The bytes and the name a source is processed under. */
  datatype Content = Content(sourceId: string, relativePath: string, sha256: string)

  /** The fingerprints of the first `n` stages. */
  function Fingerprints(p: Pipeline, n: nat): (r: seq<Fingerprint>)
    requires n <= STAGES
    ensures |r| == n && forall i | 0 <= i < n :: r[i] == FingerprintAt(p, i)
  {
    seq(n, i requires 0 <= i < n => FingerprintAt(p, i))
  }

  /** Stage number, source, outputs of the earlier stages, fingerprints of these stages and its own:
      the chunker, for one, names the enrichment revision in its chunk IDs. */
  type Chain<!T> = (nat, Content, seq<T>, seq<Fingerprint>) -> T

  /** The outputs of the first `n` stages computed from scratch. */
  function Run<T>(chain: Chain<T>, source: Content, p: Pipeline, n: nat): (r: seq<T>)
    requires n <= STAGES
    ensures |r| == n
  {
    if n == 0 then []
    else
      var earlier := Run(chain, source, p, n - 1);
      earlier + [chain(n - 1, source, earlier, Fingerprints(p, n))]
  }

  /** The outputs of the first `n` stages when those before `start` come from the cache. */
  function Resume<T>(chain: Chain<T>, source: Content, p: Pipeline, cached: seq<T>, start: nat, n: nat): (r: seq<T>)
    requires n <= STAGES && start <= |cached|
    ensures |r| == n
  {
    if n <= start then cached[..n]
    else
      var earlier := Resume(chain, source, p, cached, start, n - 1);
      earlier + [chain(n - 1, source, earlier, Fingerprints(p, n))]
  }

  /** The chosen stage is the first whose fingerprint differs. */
  lemma RestartFirst(before: Pipeline, after: Pipeline)
    ensures var k := StageIndex(PipelineRestart(before, after));
      && k <= STAGES
      && (forall i | 0 <= i < k :: FingerprintAt(before, i) == FingerprintAt(after, i))
      && (k < STAGES ==> FingerprintAt(before, k) != FingerprintAt(after, k))
      && (k == STAGES <==> before == after)
  {
  }

  lemma {:induction false} RunPrefix<T>(chain: Chain<T>, source: Content, p: Pipeline, m: nat, n: nat)
    requires m <= n <= STAGES
    ensures Run(chain, source, p, n)[..m] == Run(chain, source, p, m)
  {
    if m < n { RunPrefix(chain, source, p, m, n - 1); }
  }

  lemma {:induction false} RunAgrees<T>(chain: Chain<T>, source: Content, before: Pipeline, after: Pipeline, n: nat)
    requires n <= STAGES && forall i | 0 <= i < n :: FingerprintAt(before, i) == FingerprintAt(after, i)
    ensures Run(chain, source, before, n) == Run(chain, source, after, n)
  {
    if n > 0 {
      RunAgrees(chain, source, before, after, n - 1);
      assert Fingerprints(before, n) == Fingerprints(after, n);
    }
  }

  lemma {:induction false} ResumeIsRun<T>(
    chain: Chain<T>, source: Content, p: Pipeline, cached: seq<T>, start: nat, n: nat)
    requires n <= STAGES && start <= STAGES && start <= |cached|
    requires cached[..start] == Run(chain, source, p, start)
    ensures Resume(chain, source, p, cached, start, n) == Run(chain, source, p, n)
  {
    if n <= start {
      RunPrefix(chain, source, p, n, start);
      assert cached[..n] == cached[..start][..n];
    } else {
      ResumeIsRun(chain, source, p, cached, start, n - 1);
    }
  }

  /** Restarting at any stage up to the chosen one, on outputs cached under the old fingerprint,
      gives what recomputing everything under the new one gives. */
  lemma RestartSound<T>(chain: Chain<T>, source: Content, before: Pipeline, after: Pipeline, start: nat)
    requires start <= StageIndex(PipelineRestart(before, after))
    ensures Resume(chain, source, after, Run(chain, source, before, STAGES), start, STAGES)
      == Run(chain, source, after, STAGES)
  {
    RestartFirst(before, after);
    RunPrefix(chain, source, before, start, STAGES);
    RunAgrees(chain, source, before, after, start);
    ResumeIsRun(chain, source, after, Run(chain, source, before, STAGES), start, STAGES);
  }

  /** The stage chain that outputs each stage's own fingerprint. */
  function Echo(): Chain<Fingerprint> {
    (i: nat, source: Content, earlier: seq<Fingerprint>, prints: seq<Fingerprint>) =>
      if prints == [] then Named("") else prints[|prints| - 1]
  }

  lemma {:induction false} EchoRun(source: Content, p: Pipeline, n: nat, i: nat)
    requires i < n <= STAGES
    ensures Run(Echo(), source, p, n)[i] == FingerprintAt(p, i)
  {
    if i < n - 1 { EchoRun(source, p, n - 1, i); }
  }

  lemma {:induction false} ResumeKeeps<T>(
    chain: Chain<T>, source: Content, p: Pipeline, cached: seq<T>, start: nat, n: nat, i: nat)
    requires i < n <= STAGES && i < start <= |cached|
    ensures Resume(chain, source, p, cached, start, n)[i] == cached[i]
  {
    if n > start { ResumeKeeps(chain, source, p, cached, start, n - 1, i); }
  }

  ghost predicate RestartsRight(source: Content, before: Pipeline, after: Pipeline, start: nat)
    requires start <= STAGES
  {
    forall chain: Chain<Fingerprint> ::
      Resume(chain, source, after, Run(chain, source, before, STAGES), start, STAGES)
        == Run(chain, source, after, STAGES)
  }

  /** The choice is the latest right one: a start stage is right for every stage chain exactly when
      it does not lie after the chosen stage. */
  lemma RestartLatest(source: Content, before: Pipeline, after: Pipeline, start: nat)
    requires start <= STAGES
    ensures RestartsRight(source, before, after, start) <==> start <= StageIndex(PipelineRestart(before, after))
  {
    var k := StageIndex(PipelineRestart(before, after));
    RestartFirst(before, after);
    if start <= k {
      forall chain: Chain<Fingerprint>
        ensures Resume(chain, source, after, Run(chain, source, before, STAGES), start, STAGES)
          == Run(chain, source, after, STAGES)
      {
        RestartSound(chain, source, before, after, start);
      }
    } else {
      var cached := Run(Echo(), source, before, STAGES);
      ResumeKeeps(Echo(), source, after, cached, start, STAGES, k);
      EchoRun(source, before, STAGES, k);
      EchoRun(source, after, STAGES, k);
      assert Resume(Echo(), source, after, cached, start, STAGES)[k] != Run(Echo(), source, after, STAGES)[k];
    }
  }

  // ----- the whole plan

  function ContentOf(s: Source): Content {
    Content(s.sourceId, s.relativePath, s.sha256)
  }

  function PublishedContent(d: ManifestDocument): Content {
    Content(d.sourceId, d.relativePath, d.contentSha256)
  }

  /** What the caches hold for an action: the outputs of the published revision, if there is one. */
  function Cached<T>(chain: Chain<T>, a: SyncAction, blank: seq<T>): seq<T> {
    if a.previous.Some? then Run(chain, PublishedContent(a.previous.value), a.previous.value.pipeline, STAGES)
      else blank
  }

  /** Whatever the stages compute, following the plan leaves every scanned source with the outputs
      of a full recomputation under the current pipeline. */
  lemma PlanRestartsRight<T>(
    chain: Chain<T>, sources: seq<Source>, manifest: seq<ManifestDocument>, pipeline: Pipeline,
    actions: seq<SyncAction>, a: SyncAction, blank: seq<T>)
    requires PathsAgree(sources, manifest) && IsPlan(sources, manifest, pipeline, actions)
    requires a in actions && a.source.Some? && |blank| == STAGES
    ensures var cached := Cached(chain, a, blank);
      Resume(chain, ContentOf(a.source.value), pipeline, cached, StageIndex(a.startStage), STAGES)
      == Run(chain, ContentOf(a.source.value), pipeline, STAGES)
  {
    assert InPlan(sources, manifest, pipeline, a);
    var source := ContentOf(a.source.value);
    var start := StageIndex(a.startStage);
    if start == 0 {
      ResumeIsRun(chain, source, pipeline, Cached(chain, a, blank), 0, STAGES);
    } else {
      var document := a.previous.value;
      assert PublishedContent(document) == source;
      RestartFirst(document.pipeline, pipeline);
      RestartSound(chain, source, document.pipeline, pipeline, start);
    }
  }
}
