/** The layout step end to end: adversarial responses, one for each page, are parsed, stabilized and
    applied (`_refine_page` in backends.py, then `apply_layout_patches` as pipeline.py calls it).
    Whatever the parser accepts with exclusions off, the verifier in models.py accepts too. */
module LayoutPipeline {
  import opened Common
  import opened Layout
  import opened LayoutParse
  import opened LayoutStabilize
  import opened LayoutApply
  import opened LayoutContent
  import opened LayoutReapply

  type Response = map<string, Json>

  /** `{value.block_id: value.label for value in blocks}` over one page. */
  function LabelsOn(raw: seq<Block>, page: int): map<string, string> {
    map id | id in Elements(IdsOnPage(raw, page)) :: LabelOf(raw, id)
  }

  function LabelOf(raw: seq<Block>, id: string): string {
    if id in Ids(raw) then BlockById(raw, id).blockLabel else ""
  }

  ghost function ParsedOn(raw: seq<Block>, page: int, response: Response, fingerprint: string, allow: bool)
    : Result<LayoutPatch>
  {
    ParsedPatch(response, page, IdsOnPage(raw, page), LabelsOn(raw, page), fingerprint, allow)
  }

  /** `patch` is what `_refine_page` returns for an accepted response. */
  ghost predicate RefinedOn(
    raw: seq<Block>, page: int, response: Response, fingerprint: string, allow: bool, patch: LayoutPatch)
  {
    var parsed := ParsedOn(raw, page, response, fingerprint, allow);
    parsed.Ok? && IsStabilized(parsed.value, patch, Filter(raw, OnPage(page)), page)
  }

  ghost predicate AllRefined(
    raw: seq<Block>, pages: seq<int>, responses: seq<Response>, fingerprint: string, allow: bool,
    patches: seq<LayoutPatch>)
  {
    && |pages| == |responses| == |patches|
    && forall i | 0 <= i < |pages| :: RefinedOn(raw, pages[i], responses[i], fingerprint, allow, patches[i])
  }

  /** One page: the patch is valid, acyclic, an exact permutation of the page and its section
      references are headings; without exclusions it excludes nothing. */
  lemma RefinedFacts(
    raw: seq<Block>, page: int, response: Response, fingerprint: string, allow: bool, patch: LayoutPatch)
    requires DistinctIds(raw) && RefinedOn(raw, page, response, fingerprint, allow, patch)
    ensures ValidPatch(patch) && Acyclic(patch.parent) && PermutesPage(raw, patch)
    ensures patch.pageNo == page && page >= 1 && patch.fingerprint == fingerprint
    ensures HeadingsSupported(patch, LabelsOn(raw, page))
    ensures !allow ==> ExcludedBy(patch) == {}
  {
    var labels := LabelsOn(raw, page);
    var blocks := Filter(raw, OnPage(page));
    var parsed := ParsedOn(raw, page, response, fingerprint, allow).value;
    AcceptedResponse(response, page, IdsOnPage(raw, page), labels, fingerprint, allow);
    FilterIds(raw, OnPage(page));
    StabilizedPatch(parsed, patch, blocks, page, labels);
    assert patch.order[0] in Elements(patch.order);
    if !allow { assert NothingExcluded(patch); }
  }

  lemma LabelsSupport(raw: seq<Block>, page: int, patch: LayoutPatch)
    requires HeadingsSupported(patch, LabelsOn(raw, page))
    ensures HeadingsAreHeadings(raw, patch)
  {
    PageIdsLocal(raw, page);
    forall id, h | id in patch.headings && h in patch.headings[id]
      ensures h in Ids(raw) && h in patch.role && IsHeading(BlockById(raw, h).blockLabel, patch.role[h])
    {
      assert h in LabelsOn(raw, page) && h in IdsOnPage(raw, page);
    }
  }

  ghost predicate RelationsAvoidExcluded(patches: seq<LayoutPatch>) {
    forall p | p in patches ::
      AvoidsExcluded(p.parent, ExcludedIds(patches)) && AvoidsExcluded(p.group, ExcludedIds(patches))
  }

  /** What one accepted response contributes. */
  ghost predicate PagePatch(raw: seq<Block>, page: int, fingerprint: string, allow: bool, p: LayoutPatch) {
    && p.pageNo == page >= 1 && p.fingerprint == fingerprint && PermutesPage(raw, p)
    && ValidPatch(p) && Acyclic(p.parent) && HeadingsAreHeadings(raw, p)
    && (!allow ==> ExcludedBy(p) == {})
  }

  lemma RefinedPatch(
    raw: seq<Block>, page: int, response: Response, fingerprint: string, allow: bool, patch: LayoutPatch)
    requires DistinctIds(raw) && RefinedOn(raw, page, response, fingerprint, allow, patch)
    ensures PagePatch(raw, page, fingerprint, allow, patch)
  {
    RefinedFacts(raw, page, response, fingerprint, allow, patch);
    LabelsSupport(raw, page, patch);
  }

  ghost predicate PagePatches(
    raw: seq<Block>, pages: seq<int>, fingerprint: string, allow: bool, patches: seq<LayoutPatch>)
  {
    |pages| == |patches| && forall i | 0 <= i < |patches| :: PagePatch(raw, pages[i], fingerprint, allow, patches[i])
  }

  lemma PagePatchesHold(raw: seq<Block>, pages: seq<int>, fingerprint: string, allow: bool, patches: seq<LayoutPatch>)
    requires PagePatches(raw, pages, fingerprint, allow, patches)
    ensures forall p | p in patches :: ValidPatch(p) && Acyclic(p.parent) && HeadingsAreHeadings(raw, p)
    ensures OneFingerprint(patches)
    ensures !allow ==> ExcludedIds(patches) == {}
  {
    forall p | p in patches
      ensures ValidPatch(p) && Acyclic(p.parent) && HeadingsAreHeadings(raw, p) && p.fingerprint == fingerprint
      ensures !allow ==> ExcludedBy(p) == {}
    {
      var i :| 0 <= i < |patches| && patches[i] == p;
      assert PagePatch(raw, pages[i], fingerprint, allow, patches[i]);
    }
    if !allow {
      forall id ensures id !in ExcludedIds(patches) { ExcludedMember(patches, id); }
    }
  }

  lemma PageCovered(
    raw: seq<Block>, pages: seq<int>, fingerprint: string, allow: bool, patches: seq<LayoutPatch>, page: int)
    requires PagePatches(raw, pages, fingerprint, allow, patches)
    ensures page in PatchedPages(patches) <==> page in pages
    ensures page in pages ==> page >= 1 && IdsOnPage(raw, page) != []
  {
    if page in PatchedPages(patches) {
      var p :| p in patches && p.pageNo == page;
      var i :| 0 <= i < |patches| && patches[i] == p;
      assert PagePatch(raw, pages[i], fingerprint, allow, patches[i]);
    }
    if page in pages {
      var i :| 0 <= i < |pages| && pages[i] == page;
      assert PagePatch(raw, pages[i], fingerprint, allow, patches[i]);
      assert patches[i] in patches;
    }
  }

  lemma PagesPermuted(raw: seq<Block>, pages: seq<int>, fingerprint: string, allow: bool, patches: seq<LayoutPatch>)
    requires PagePatches(raw, pages, fingerprint, allow, patches) && Distinct(pages) && |pages| <= 10_000
    ensures ExactPermutations(raw, patches)
  {
    forall i | 0 <= i < |patches| ensures patches[i].pageNo == pages[i] && PermutesPage(raw, patches[i]) {
      assert PagePatch(raw, pages[i], fingerprint, allow, patches[i]);
    }
  }

  lemma PagePatchesCover(raw: seq<Block>, pages: seq<int>, fingerprint: string, allow: bool, patches: seq<LayoutPatch>)
    requires PagePatches(raw, pages, fingerprint, allow, patches) && Distinct(pages) && |pages| <= 10_000
    ensures ExactPermutations(raw, patches) && CapturesCovered(raw, patches, Some(pages))
  {
    PagesPermuted(raw, pages, fingerprint, allow, patches);
    forall page: int
      ensures page in PatchedPages(patches) <==> page in pages && IdsOnPage(raw, page) != []
      ensures page in pages ==> page >= 1
    {
      PageCovered(raw, pages, fingerprint, allow, patches, page);
    }
  }

  lemma RefinedPatchesHold(
    raw: seq<Block>, pages: seq<int>, responses: seq<Response>, fingerprint: string, allow: bool,
    patches: seq<LayoutPatch>)
    requires DistinctIds(raw) && Distinct(pages) && |pages| <= 10_000
    requires AllRefined(raw, pages, responses, fingerprint, allow, patches)
    ensures ExactPermutations(raw, patches) && CapturesCovered(raw, patches, Some(pages)) && OneFingerprint(patches)
    ensures !allow ==> ExcludedIds(patches) == {}
    ensures forall p | p in patches :: ValidPatch(p) && Acyclic(p.parent) && HeadingsAreHeadings(raw, p)
  {
    forall i | 0 <= i < |patches| ensures PagePatch(raw, pages[i], fingerprint, allow, patches[i]) {
      assert RefinedOn(raw, pages[i], responses[i], fingerprint, allow, patches[i]);
      RefinedPatch(raw, pages[i], responses[i], fingerprint, allow, patches[i]);
    }
    PagePatchesHold(raw, pages, fingerprint, allow, patches);
    PagePatchesCover(raw, pages, fingerprint, allow, patches);
  }

  /** Accepted responses give patches that pass every check of `apply_layout_patches` exactly when no
      remaining relation points at an excluded block; with exclusions off, always. */
  lemma AcceptedResponsesPass(
    raw: seq<Block>, pages: seq<int>, responses: seq<Response>, fingerprint: string, allow: bool,
    patches: seq<LayoutPatch>)
    requires RawAccepted(raw) && Distinct(pages) && |pages| <= 10_000
    requires AllRefined(raw, pages, responses, fingerprint, allow, patches)
    ensures forall p | p in patches :: ValidPatch(p)
    ensures PatchesAccepted(raw, patches, Some(pages), allow) <==> RelationsAvoidExcluded(patches)
    ensures !allow ==> PatchesAccepted(raw, patches, Some(pages), allow) && ExcludedIds(patches) == {}
  {
    RefinedPatchesHold(raw, pages, responses, fingerprint, allow, patches);
  }

  // ----- room for the layout metadata

  function Set(value: Option<string>): nat {
    if value.Some? then 1 else 0
  }

  /** The layout keys the patch writes still fit beside the block's own metadata. */
  predicate Room(b: Block, relations: Relations) {
    |b.metadata - LAYOUT_KEYS| + Set(relations.parent) + Set(relations.group) + Set(relations.role) <= MAX_METADATA
  }

  lemma MetadataSize(m: map<string, string>, parent: Option<string>, group: Option<string>, role: Option<string>)
    ensures |RefinedMetadata(m, parent, group, role)| == |m - LAYOUT_KEYS| + Set(parent) + Set(group) + Set(role)
  {
    var base := m - LAYOUT_KEYS;
    assert PARENT_KEY != GROUP_KEY && PARENT_KEY != ROLE_KEY && GROUP_KEY != ROLE_KEY by {
      assert |PARENT_KEY| == 22 && |GROUP_KEY| == 21 && |ROLE_KEY| == 11;
    }
    assert PARENT_KEY !in base && GROUP_KEY !in base && ROLE_KEY !in base;
    var a := Annotate(base, PARENT_KEY, parent);
    AnnotateSize(base, PARENT_KEY, parent);
    AnnotateSize(a, GROUP_KEY, group);
    AnnotateSize(Annotate(a, GROUP_KEY, group), ROLE_KEY, role);
  }

  lemma AnnotateSize(m: map<string, string>, key: string, value: Option<string>)
    requires key !in m
    ensures |Annotate(m, key, value)| == |m| + Set(value)
  {
    if value.Some? { assert m[key := value.value].Keys == m.Keys + {key}; }
  }

  ghost predicate RelationsBounded(relations: Relations) {
    && (relations.parent.Some? ==> |relations.parent.value| <= 512)
    && (relations.group.Some? ==> |relations.group.value| <= 512)
    && (relations.role.Some? ==> |relations.role.value| <= 512)
    && |relations.headings| <= 16
  }

  lemma PathValid(raw: seq<Block>, headings: seq<string>)
    requires (forall h | h in headings :: h in Ids(raw)) && |headings| <= 16
    requires forall b | b in raw :: ValidBlock(b)
    ensures ValidSectionPath(HeadingTexts(raw, headings))
  {
    var texts := HeadingTexts(raw, headings);
    forall i | 0 <= i < |texts| ensures 1 <= |texts[i]| <= 500 {
      var b := BlockById(raw, headings[i]);
      assert ValidBlock(b) && !Blank(b.text);
    }
  }

  lemma MetadataValid(m: map<string, string>, relations: Relations)
    requires ValidMetadata(m) && RelationsBounded(relations)
    ensures ValidMetadata(RefinedMetadata(m, relations.parent, relations.group, relations.role)) <==>
            |m - LAYOUT_KEYS| + Set(relations.parent) + Set(relations.group) + Set(relations.role) <= MAX_METADATA
  {
    MetadataSize(m, relations.parent, relations.group, relations.role);
    MetadataBounded(m, relations);
  }

  lemma ValidParts(a: Block, b: Block)
    requires ValidBlock(a) && b == a.(sectionPath := b.sectionPath, metadata := b.metadata)
    requires ValidSectionPath(b.sectionPath)
    ensures ValidBlock(b) <==> ValidMetadata(b.metadata)
  {
  }

  /** A refined block satisfies its constructor exactly when its metadata has room. */
  lemma RefinedValid(raw: seq<Block>, relations: Relations, original: Block)
    requires forall b | b in raw :: ValidBlock(b)
    requires original in raw && RelationsBounded(relations) && forall h | h in relations.headings :: h in Ids(raw)
    ensures ValidBlock(Refine(raw, relations, original)) <==> Room(original, relations)
  {
    var refined := Refine(raw, relations, original);
    assert ValidBlock(original);
    if relations.headings != [] { PathValid(raw, relations.headings); }
    MetadataValid(original.metadata, relations);
    ValidParts(original, refined);
  }

  lemma MetadataBounded(m: map<string, string>, relations: Relations)
    requires ValidMetadata(m) && RelationsBounded(relations)
    ensures var r := RefinedMetadata(m, relations.parent, relations.group, relations.role);
      forall key | key in r :: 1 <= |key| <= 128 && |r[key]| <= 4096
  {
  }

  ghost predicate PageRoom(raw: seq<Block>, patch: LayoutPatch)
    requires PageLocal(raw, patch)
  {
    forall id | id in patch.order :: Room(BlockById(raw, id), RelationsOf(patch, id))
  }

  ghost predicate AllRoom(raw: seq<Block>, patches: seq<LayoutPatch>)
    requires forall p | p in patches :: PageLocal(raw, p)
  {
    forall p | p in patches :: PageRoom(raw, p)
  }

  lemma PatchBounded(patch: LayoutPatch, id: string)
    requires ValidPatch(patch)
    ensures RelationsBounded(RelationsOf(patch, id))
  {
  }

  lemma PageValid(raw: seq<Block>, patch: LayoutPatch)
    requires PageLocal(raw, patch) && (forall id | id in patch.order :: RelationsBounded(RelationsOf(patch, id)))
    requires forall b | b in raw :: ValidBlock(b)
    ensures AllValid(RefinedPage(raw, patch, {})) <==> PageRoom(raw, patch)
  {
    FilterAll(patch.order, Retained({}));
    var refined := RefinedPage(raw, patch, {});
    forall i | 0 <= i < |patch.order|
      ensures ValidBlock(refined[i]) <==> Room(BlockById(raw, patch.order[i]), RelationsOf(patch, patch.order[i]))
    {
      assert patch.order[i] in patch.order;
      RefinedValid(raw, RelationsOf(patch, patch.order[i]), BlockById(raw, patch.order[i]));
    }
    SameTests(raw, patch, refined);
  }

  lemma SameTests(raw: seq<Block>, patch: LayoutPatch, refined: seq<Block>)
    requires PageLocal(raw, patch) && |refined| == |patch.order|
    requires forall i | 0 <= i < |patch.order| ::
      ValidBlock(refined[i]) <==> Room(BlockById(raw, patch.order[i]), RelationsOf(patch, patch.order[i]))
    ensures AllValid(refined) <==> PageRoom(raw, patch)
  {
    if AllValid(refined) {
      forall id | id in patch.order ensures Room(BlockById(raw, id), RelationsOf(patch, id)) {
        var i :| 0 <= i < |patch.order| && patch.order[i] == id;
        assert refined[i] in refined;
      }
    }
    if PageRoom(raw, patch) {
      forall b | b in refined ensures ValidBlock(b) {
        var i :| 0 <= i < |refined| && refined[i] == b;
        assert patch.order[i] in patch.order;
      }
    }
  }

  lemma AllValidRoom(raw: seq<Block>, patches: seq<LayoutPatch>)
    requires Applicable(raw, patches) && ExcludedIds(patches) == {}
    requires forall p | p in patches :: forall id | id in p.order :: RelationsBounded(RelationsOf(p, id))
    requires forall b | b in raw :: ValidBlock(b)
    ensures PagesValid(PagesOf(raw, patches)) <==> AllRoom(raw, patches)
  {
    forall p | p in patches
      ensures p.pageNo in PagesOf(raw, patches) && (AllValid(PagesOf(raw, patches)[p.pageNo]) <==> PageRoom(raw, p))
    {
      PageOfPatch(raw, patches, p);
    }
    EveryPageRoom(raw, patches);
  }

  lemma PageOfPatch(raw: seq<Block>, patches: seq<LayoutPatch>, p: LayoutPatch)
    requires Applicable(raw, patches) && ExcludedIds(patches) == {} && p in patches
    requires forall id | id in p.order :: RelationsBounded(RelationsOf(p, id))
    requires forall b | b in raw :: ValidBlock(b)
    ensures p.pageNo in PagesOf(raw, patches) && (AllValid(PagesOf(raw, patches)[p.pageNo]) <==> PageRoom(raw, p))
  {
    PatchForPage(patches, p);
    PageValid(raw, p);
  }

  lemma EveryPageRoom(raw: seq<Block>, patches: seq<LayoutPatch>)
    requires Applicable(raw, patches)
    requires forall p | p in patches ::
      p.pageNo in PagesOf(raw, patches) && (AllValid(PagesOf(raw, patches)[p.pageNo]) <==> PageRoom(raw, p))
    ensures PagesValid(PagesOf(raw, patches)) <==> AllRoom(raw, patches)
  {
    assert forall page | page in PagesOf(raw, patches) :: PatchFor(patches, Some(page)).value in patches;
  }

  ghost predicate RoomForThree(raw: seq<Block>) {
    forall b | b in raw :: |b.metadata - LAYOUT_KEYS| + 3 <= MAX_METADATA
  }

  lemma AppliedNonEmpty(raw: seq<Block>, patches: seq<LayoutPatch>)
    requires Applicable(raw, patches) && ExcludedIds(patches) == {} && raw != []
    ensures Applied(raw, patches) != []
  {
    AppliedConserves(raw, patches);
    FoundIn(raw, raw[0]);
    assert raw[0].blockId in Ids(Applied(raw, patches));
  }

  /** With exclusions off the whole step succeeds exactly when the refined metadata fits, in
      particular whenever every raw block leaves room for three metadata keys. */
  lemma AcceptedResponsesApply(
    raw: seq<Block>, pages: seq<int>, responses: seq<Response>, fingerprint: string, patches: seq<LayoutPatch>)
    requires forall b | b in raw :: ValidBlock(b)
    requires RawAccepted(raw) && Distinct(pages) && |pages| <= 10_000
    requires AllRefined(raw, pages, responses, fingerprint, false, patches)
    ensures forall p | p in patches :: ValidPatch(p) && PageLocal(raw, p)
    ensures ApplySucceeds(raw, patches, Some(pages), false) <==> AllRoom(raw, patches)
    ensures RoomForThree(raw) ==> ApplySucceeds(raw, patches, Some(pages), false)
  {
    AcceptedResponsesPass(raw, pages, responses, fingerprint, false, patches);
    ValidApplicable(raw, patches, Some(pages), false);
    forall p, id | p in patches && id in p.order ensures RelationsBounded(RelationsOf(p, id)) { PatchBounded(p, id); }
    ApplicableSucceeds(raw, patches, Some(pages));
  }

  lemma ApplicableSucceeds(raw: seq<Block>, patches: seq<LayoutPatch>, captured: Option<seq<int>>)
    requires PatchesAccepted(raw, patches, captured, false) && Applicable(raw, patches)
    requires forall p | p in patches :: forall id | id in p.order :: RelationsBounded(RelationsOf(p, id))
    requires forall b | b in raw :: ValidBlock(b)
    ensures ApplySucceeds(raw, patches, captured, false) <==> AllRoom(raw, patches)
    ensures RoomForThree(raw) ==> AllRoom(raw, patches)
  {
    AppliedNonEmpty(raw, patches);
    AllValidRoom(raw, patches);
    if RoomForThree(raw) { ThreeFit(raw, patches); }
  }

  lemma ThreeFit(raw: seq<Block>, patches: seq<LayoutPatch>)
    requires RoomForThree(raw) && forall p | p in patches :: PageLocal(raw, p)
    ensures AllRoom(raw, patches)
  {
    forall p, id | p in patches && id in p.order ensures Room(BlockById(raw, id), RelationsOf(p, id)) {
      assert BlockById(raw, id) in raw;
    }
  }

  // ----- the step as a program

  /** `_refine_page` after the model has answered. */
  method RefinePage(raw: seq<Block>, page: int, response: Response, fingerprint: string, allow: bool)
    returns (r: Result<LayoutPatch>)
    requires DistinctIds(raw)
    ensures r.Ok? <==> ParsedOn(raw, page, response, fingerprint, allow).Ok?
    ensures r.Ok? ==> RefinedOn(raw, page, response, fingerprint, allow, r.value)
  {
    r := ParseLayoutPatch(response, page, IdsOnPage(raw, page), LabelsOn(raw, page), fingerprint, allow);
    if r.Ok? {
      AcceptedResponse(response, page, IdsOnPage(raw, page), LabelsOn(raw, page), fingerprint, allow);
      FilterIds(raw, OnPage(page));
      r := Stabilize(r.value, Filter(raw, OnPage(page)), page);
    }
  }

  ghost predicate AllParsed(raw: seq<Block>, pages: seq<int>, responses: seq<Response>, fingerprint: string)
    requires |pages| == |responses|
  {
    forall i | 0 <= i < |pages| :: ParsedOn(raw, pages[i], responses[i], fingerprint, false).Ok?
  }

  /** `refine`: one patch for each captured page, or the first rejection. */
  method RefinePages(raw: seq<Block>, pages: seq<int>, responses: seq<Response>, fingerprint: string)
    returns (r: Result<seq<LayoutPatch>>)
    requires DistinctIds(raw) && |pages| == |responses|
    ensures r.Ok? <==> AllParsed(raw, pages, responses, fingerprint)
    ensures r.Ok? ==> AllRefined(raw, pages, responses, fingerprint, false, r.value)
  {
    r := Ok([]);
    var i := 0;
    ghost var refined := RefinedAt(raw, pages, responses, fingerprint);
    while i < |pages| && r.Ok?
      invariant 0 <= i <= |pages|
      invariant r.Ok? ==> |r.value| == i && AllHold(refined, r.value)
      invariant r.Err? ==> exists j | 0 <= j < |pages| :: ParsedOn(raw, pages[j], responses[j], fingerprint, false).Err?
    {
      var patch := RefinePage(raw, pages[i], responses[i], fingerprint, false);
      if patch.Ok? {
        assert refined(i, patch.value);
        HoldsSnoc(refined, r.value, patch.value);
        r := Ok(r.value + [patch.value]);
      } else {
        r := Err(patch.error);
      }
      i := i + 1;
    }
    if r.Ok? { HeldRefined(raw, pages, responses, fingerprint, r.value); }
  }

  ghost function RefinedAt(raw: seq<Block>, pages: seq<int>, responses: seq<Response>, fingerprint: string)
    : (int, LayoutPatch) -> bool
  {
    (i, patch) => 0 <= i < |pages| && i < |responses| &&
      RefinedOn(raw, pages[i], responses[i], fingerprint, false, patch)
  }

  ghost predicate AllHold<T>(p: (int, T) -> bool, s: seq<T>) {
    forall i | 0 <= i < |s| :: p(i, s[i])
  }

  lemma HoldsSnoc<T>(p: (int, T) -> bool, s: seq<T>, x: T)
    requires AllHold(p, s) && p(|s|, x)
    ensures AllHold(p, s + [x])
  {
  }

  lemma HeldRefined(
    raw: seq<Block>, pages: seq<int>, responses: seq<Response>, fingerprint: string, patches: seq<LayoutPatch>)
    requires |patches| == |pages| == |responses| && AllHold(RefinedAt(raw, pages, responses, fingerprint), patches)
    ensures AllRefined(raw, pages, responses, fingerprint, false, patches)
    ensures AllParsed(raw, pages, responses, fingerprint)
  {
    forall i | 0 <= i < |pages| ensures RefinedOn(raw, pages[i], responses[i], fingerprint, false, patches[i]) {
      assert RefinedAt(raw, pages, responses, fingerprint)(i, patches[i]);
    }
  }

  ghost predicate AllLocal(raw: seq<Block>, patches: seq<LayoutPatch>) {
    forall p | p in patches :: PageLocal(raw, p)
  }

  method ApplyRefined(
    raw: seq<Block>, pages: seq<int>, ghost responses: seq<Response>, ghost fingerprint: string,
    patches: seq<LayoutPatch>)
    returns (r: Result<seq<Block>>)
    requires RawAccepted(raw) && Distinct(pages) && |pages| <= 10_000
    requires AllRefined(raw, pages, responses, fingerprint, false, patches)
    ensures r.Ok? <==> ApplySucceeds(raw, patches, Some(pages), false)
    ensures r.Ok? ==> AllLocal(raw, patches) && r.value == Applied(raw, patches) && Conserves(raw, r.value, {})
  {
    AcceptedResponsesPass(raw, pages, responses, fingerprint, false, patches);
    r := ApplyLayoutPatches(raw, patches, Some(pages), false);
    if r.Ok? { AppliedContent(raw, patches, Some(pages), false); }
  }
}
