/** Applying verified layout patches to the raw blocks (`apply_layout_patches`, models.py). */
module LayoutApply {
  import opened Common
  import opened Text
  import opened Layout
  import opened LayoutParse
  import opened LayoutStabilize

  const PARENT_KEY := "layout_parent_block_id"
  const GROUP_KEY := "layout_group_block_id"
  const ROLE_KEY := "layout_role"
  const LAYOUT_KEYS: set<string> := {PARENT_KEY, GROUP_KEY, ROLE_KEY}

  function OnPage(page: int): Block -> bool {
    b => PrimaryPage(b) == Some(page)
  }

  /** `ids_by_page.get(page, ())`. */
  function IdsOnPage(raw: seq<Block>, page: int): seq<string> {
    Ids(Filter(raw, OnPage(page)))
  }

  /** `by_id[id]`. */
  function BlockById(raw: seq<Block>, id: string): (b: Block)
    requires id in Ids(raw)
    ensures b in raw && b.blockId == id
  {
    if raw[0].blockId == id then raw[0] else
      assert id in Ids(raw[1..]) by {
        var i :| 0 <= i < |raw| && Ids(raw)[i] == id;
        assert Ids(raw[1..])[i - 1] == id;
      }
      BlockById(raw[1..], id)
  }

  function PatchFor(patches: seq<LayoutPatch>, page: Option<int>): (r: Option<LayoutPatch>)
    ensures r.Some? ==> r.value in patches && page == Some(r.value.pageNo)
    ensures r.None? ==> forall p | p in patches :: page != Some(p.pageNo)
  {
    if patches == [] then None
    else if page == Some(patches[0].pageNo) then Some(patches[0])
    else PatchFor(patches[1..], page)
  }

  function ExcludedBy(patch: LayoutPatch): set<string> {
    set id | id in patch.excluded && patch.excluded[id].Some?
  }

  /** `excluded_ids`: every block any patch proposes to drop. */
  function ExcludedIds(patches: seq<LayoutPatch>): set<string> {
    if patches == [] then {} else ExcludedBy(patches[0]) + ExcludedIds(patches[1..])
  }

  // ----- one refined block

  /** `_layout_heading_text`. */
  function HeadingText(text: string): (r: string)
    ensures |r| <= 500 && (!Blank(text) ==> r != [])
  {
    var line := SingleLine(text);
    if |line| <= 500 then line else line[..500]
  }

  function Annotate(metadata: map<string, string>, key: string, value: Option<string>): map<string, string> {
    if value.Some? then metadata[key := value.value] else metadata
  }

  function RefinedMetadata(
    metadata: map<string, string>, parent: Option<string>, group: Option<string>, role: Option<string>)
    : map<string, string>
  {
    Annotate(Annotate(Annotate(metadata - LAYOUT_KEYS, PARENT_KEY, parent), GROUP_KEY, group), ROLE_KEY, role)
  }

  /** The relations of one block as its patch states them. */
  datatype Relations = Relations(
    parent: Option<string>, group: Option<string>, role: Option<string>, headings: seq<string>)

  function RelationsOf(patch: LayoutPatch, id: string): Relations {
    Relations(
      if id in patch.parent then patch.parent[id] else None,
      if id in patch.group then patch.group[id] else None,
      if id in patch.role then patch.role[id] else None,
      if id in patch.headings then patch.headings[id] else [])
  }

  function HeadingTexts(raw: seq<Block>, headings: seq<string>): (r: seq<string>)
    requires forall h | h in headings :: h in Ids(raw)
    ensures |r| == |headings|
    ensures forall i | 0 <= i < |r| :: r[i] == HeadingText(BlockById(raw, headings[i]).text)
  {
    if headings == [] then [] else
      assert headings[0] in headings;
      [HeadingText(BlockById(raw, headings[0]).text)] + HeadingTexts(raw, headings[1..])
  }

  /** `replace(original, section_path=…, metadata=…)`. */
  function Refine(raw: seq<Block>, relations: Relations, original: Block): Block
    requires forall h | h in relations.headings :: h in Ids(raw)
  {
    var path := if relations.headings != [] then HeadingTexts(raw, relations.headings) else original.sectionPath;
    original.(sectionPath := path,
              metadata := RefinedMetadata(original.metadata, relations.parent, relations.group, relations.role))
  }

  ghost predicate PageLocal(raw: seq<Block>, patch: LayoutPatch) {
    && (forall id | id in patch.order :: id in Ids(raw))
    && forall id | id in patch.order :: forall h | h in RelationsOf(patch, id).headings :: h in Ids(raw)
  }

  /** The refined blocks of `ids`, in that order. */
  ghost function RefineIds(raw: seq<Block>, patch: LayoutPatch, ids: seq<string>): (r: seq<Block>)
    requires PageLocal(raw, patch) && forall id | id in ids :: id in patch.order
    ensures |r| == |ids|
    ensures forall i | 0 <= i < |r| :: r[i] == Refine(raw, RelationsOf(patch, ids[i]), BlockById(raw, ids[i]))
  {
    if ids == [] then [] else
      assert ids[0] in ids;
      [Refine(raw, RelationsOf(patch, ids[0]), BlockById(raw, ids[0]))] + RefineIds(raw, patch, ids[1..])
  }

  function Retained(excluded: set<string>): string -> bool {
    id => id !in excluded
  }

  /** What a patched page contributes: its blocks in patch order without the excluded ones. */
  ghost function RefinedPage(raw: seq<Block>, patch: LayoutPatch, excluded: set<string>): seq<Block>
    requires PageLocal(raw, patch)
  {
    RefineIds(raw, patch, Filter(patch.order, Retained(excluded)))
  }

  type Pages = map<int, seq<Block>>

  ghost function RefinedPages(raw: seq<Block>, patches: seq<LayoutPatch>, excluded: set<string>): Pages
    requires forall p | p in patches :: PageLocal(raw, p)
  {
    map page | page in PatchedPages(patches) :: RefinedPage(raw, PatchFor(patches, Some(page)).value, excluded)
  }

  function PatchedPages(patches: seq<LayoutPatch>): set<int> {
    set p | p in patches :: p.pageNo
  }

  /** The raw blocks in order, each patched page standing where its first block stood. */
  ghost function Emit(rest: seq<Block>, pages: Pages, emitted: set<int>): seq<Block> {
    if rest == [] then []
    else
      var page := PrimaryPage(rest[0]);
      if page.None? || page.value !in pages then [rest[0]] + Emit(rest[1..], pages, emitted)
      else if page.value in emitted then Emit(rest[1..], pages, emitted)
      else pages[page.value] + Emit(rest[1..], pages, emitted + {page.value})
  }

  function Renumber(blocks: seq<Block>): (r: seq<Block>)
    ensures |r| == |blocks|
  {
    seq(|blocks|, i requires 0 <= i < |blocks| => blocks[i].(ordinal := i))
  }

  // ----- acceptance

  ghost predicate RawAccepted(raw: seq<Block>) {
    && 1 <= |raw| <= 100_000
    && DistinctIds(raw)
    && (forall a, b | a in raw && b in raw :: a.sourceId == b.sourceId && a.sourceRevision == b.sourceRevision)
  }

  /** Each patch is an exact permutation of the blocks whose primary page it names. */
  ghost predicate ExactPermutations(raw: seq<Block>, patches: seq<LayoutPatch>) {
    && |patches| <= 10_000
    && (forall i, j | 0 <= i < j < |patches| :: patches[i].pageNo != patches[j].pageNo)
    && forall p | p in patches ::
      Elements(p.order) == Elements(IdsOnPage(raw, p.pageNo)) && IdsOnPage(raw, p.pageNo) != []
  }

  ghost predicate CapturesCovered(raw: seq<Block>, patches: seq<LayoutPatch>, captured: Option<seq<int>>) {
    captured.Some? ==>
      && (forall page | page in captured.value :: page >= 1)
      && Distinct(captured.value)
      && forall page :: page in PatchedPages(patches) <==> page in captured.value && IdsOnPage(raw, page) != []
  }

  ghost predicate OneFingerprint(patches: seq<LayoutPatch>) {
    forall i, j | 0 <= i < j < |patches| :: patches[i].fingerprint == patches[j].fingerprint
  }

  predicate HeadingsAreHeadings(raw: seq<Block>, patch: LayoutPatch) {
    forall id {:trigger patch.headings[id]} | id in patch.headings :: forall h | h in patch.headings[id] ::
      h in Ids(raw) && h in patch.role && IsHeading(BlockById(raw, h).blockLabel, patch.role[h])
  }

  predicate AvoidsExcluded(relation: Relation, excluded: set<string>) {
    forall id {:trigger relation[id]} | id in relation :: relation[id].Some? ==> relation[id].value !in excluded
  }

  ghost predicate PatchSound(raw: seq<Block>, patch: LayoutPatch, excluded: set<string>) {
    && Acyclic(patch.parent)
    && HeadingsAreHeadings(raw, patch)
    && AvoidsExcluded(patch.parent, excluded) && AvoidsExcluded(patch.group, excluded)
  }

  /** Every check `apply_layout_patches` makes before it emits anything. */
  ghost predicate PatchesAccepted(
    raw: seq<Block>, patches: seq<LayoutPatch>, captured: Option<seq<int>>, allowExclusions: bool)
  {
    && RawAccepted(raw)
    && ExactPermutations(raw, patches)
    && CapturesCovered(raw, patches, captured)
    && OneFingerprint(patches)
    && (ExcludedIds(patches) != {} ==> allowExclusions)
    && forall p | p in patches :: PatchSound(raw, p, ExcludedIds(patches))
  }

  lemma PageIdsLocal(raw: seq<Block>, page: int)
    ensures forall id | id in IdsOnPage(raw, page) :: id in Ids(raw)
  {
    var kept := Filter(raw, OnPage(page));
    forall id | id in IdsOnPage(raw, page) ensures id in Ids(raw) {
      var i :| 0 <= i < |kept| && Ids(kept)[i] == id;
      var k :| 0 <= k < |raw| && raw[k] == kept[i];
      assert Ids(raw)[k] == id;
    }
  }

  lemma PatchLocal(raw: seq<Block>, patch: LayoutPatch)
    requires ValidHeadings(patch.headings, Elements(patch.order))
    requires Elements(patch.order) == Elements(IdsOnPage(raw, patch.pageNo))
    ensures PageLocal(raw, patch)
  {
    PageIdsLocal(raw, patch.pageNo);
    assert forall id | id in Elements(patch.order) :: id in IdsOnPage(raw, patch.pageNo) && id in Ids(raw);
    forall id | id in patch.order ensures forall h | h in RelationsOf(patch, id).headings :: h in Ids(raw) {
      assert id in Elements(patch.order);
      assert forall h | h in patch.headings[id] :: h in Elements(patch.order);
    }
  }

  lemma PatchShape(patch: LayoutPatch)
    requires ValidPatch(patch)
    ensures patch.parent.Keys == Elements(patch.order) && TargetsIn(patch.parent, patch.parent.Keys)
    ensures ValidHeadings(patch.headings, Elements(patch.order))
  {
  }

  lemma OneSource(raw: seq<Block>)
    requires raw != []
    ensures |set b | b in raw :: (b.sourceId, b.sourceRevision)| == 1 <==>
            forall a, b | a in raw && b in raw :: a.sourceId == b.sourceId && a.sourceRevision == b.sourceRevision
  {
    var keys := set b | b in raw :: (b.sourceId, b.sourceRevision);
    var first := (raw[0].sourceId, raw[0].sourceRevision);
    assert raw[0] in raw && first in keys;
    if |keys| == 1 {
      SubsetCard({first}, keys);
      forall b | b in raw ensures (b.sourceId, b.sourceRevision) == first {
        assert (b.sourceId, b.sourceRevision) in keys;
      }
    }
    if forall a, b | a in raw && b in raw :: a.sourceId == b.sourceId && a.sourceRevision == b.sourceRevision {
      forall key | key in keys ensures key == first {
        var b :| b in raw && key == (b.sourceId, b.sourceRevision);
      }
      assert keys == {first};
    }
  }

  method CheckRaw(raw: seq<Block>) returns (ok: bool)
    ensures ok <==> RawAccepted(raw)
  {
    if raw == [] || |raw| > 100_000 { return false; }
    DistinctCount(Ids(raw));
    assert Distinct(Ids(raw)) <==> DistinctIds(raw) by {
      assert forall i | 0 <= i < |raw| :: Ids(raw)[i] == raw[i].blockId;
    }
    OneSource(raw);
    return |Elements(Ids(raw))| == |raw| && |set b | b in raw :: (b.sourceId, b.sourceRevision)| == 1;
  }

  /** The loop that fills `patch_by_page`. */
  method CheckPermutations(raw: seq<Block>, patches: seq<LayoutPatch>) returns (ok: bool)
    ensures ok <==> ExactPermutations(raw, patches)
  {
    if |patches| > 10_000 { return false; }
    var patchByPage: set<int> := {};
    for i := 0 to |patches|
      invariant forall page :: page in patchByPage <==> exists j | 0 <= j < i :: patches[j].pageNo == page
      invariant forall j, k | 0 <= j < k < i :: patches[j].pageNo != patches[k].pageNo
      invariant forall j | 0 <= j < i :: PermutesPage(raw, patches[j])
    {
      if patches[i].pageNo in patchByPage { return false; }
      if !PermutesPage(raw, patches[i]) { return false; }
      patchByPage := patchByPage + {patches[i].pageNo};
    }
    return true;
  }

  predicate PermutesPage(raw: seq<Block>, p: LayoutPatch) {
    Elements(p.order) == Elements(IdsOnPage(raw, p.pageNo)) && IdsOnPage(raw, p.pageNo) != []
  }

  method CheckCaptures(raw: seq<Block>, patches: seq<LayoutPatch>, captured: Option<seq<int>>) returns (ok: bool)
    ensures ok <==> CapturesCovered(raw, patches, captured)
  {
    if captured.None? { return true; }
    var pages := captured.value;
    DistinctCount(pages);
    if exists page | page in pages :: page < 1 { return false; }
    if |Elements(pages)| != |pages| { return false; }
    var expected := set page | page in pages && IdsOnPage(raw, page) != [];
    return PatchedPages(patches) == expected;
  }

  method CheckSound(raw: seq<Block>, patches: seq<LayoutPatch>, excluded: set<string>) returns (ok: bool)
    requires forall p | p in patches :: p.parent.Keys == Elements(p.order) && TargetsIn(p.parent, p.parent.Keys)
    ensures ok <==> forall p | p in patches :: PatchSound(raw, p, excluded)
  {
    for i := 0 to |patches|
      invariant forall j | 0 <= j < i :: PatchSound(raw, patches[j], excluded)
    {
      var patch := patches[i];
      assert patch in patches;
      var acyclic := VerifyLayoutParentGraph(patch.order, patch.parent);
      if !acyclic { return false; }
      if !HeadingsAreHeadings(raw, patch) { return false; }
      if !AvoidsExcluded(patch.parent, excluded) || !AvoidsExcluded(patch.group, excluded) { return false; }
    }
    return true;
  }

  lemma OneFingerprintSet(patches: seq<LayoutPatch>)
    ensures |set p | p in patches :: p.fingerprint| <= 1 <==> OneFingerprint(patches)
  {
    var prints := set p | p in patches :: p.fingerprint;
    if patches != [] {
      var first := patches[0].fingerprint;
      assert patches[0] in patches && first in prints;
      if |prints| <= 1 {
        SubsetCard({first}, prints);
        forall i | 0 <= i < |patches| ensures patches[i].fingerprint == first {
          assert patches[i] in patches && patches[i].fingerprint in prints;
        }
      }
      if OneFingerprint(patches) {
        forall p | p in patches ensures p.fingerprint == first {
          var i :| 0 <= i < |patches| && patches[i] == p;
        }
        SubsetCard(prints, {first});
      }
    }
  }

  method CheckPatches(
    raw: seq<Block>, patches: seq<LayoutPatch>, captured: Option<seq<int>>, allowExclusions: bool) returns (ok: bool)
    requires forall p | p in patches :: ValidPatch(p)
    ensures ok <==> PatchesAccepted(raw, patches, captured, allowExclusions)
  {
    ok := CheckRaw(raw);
    if !ok { return; }
    ok := CheckPermutations(raw, patches);
    if !ok { return; }
    ok := CheckCaptures(raw, patches, captured);
    if !ok { return; }
    OneFingerprintSet(patches);
    if |set p | p in patches :: p.fingerprint| > 1 { return false; }
    var excluded := ExcludedIds(patches);
    if excluded != {} && !allowExclusions { return false; }
    forall p | p in patches ensures p.parent.Keys == Elements(p.order) && TargetsIn(p.parent, p.parent.Keys) {
      PatchShape(p);
    }
    ok := CheckSound(raw, patches, excluded);
  }

  // ----- emission

  ghost predicate PagesValid(pages: Pages) {
    forall page | page in pages :: AllValid(pages[page])
  }

  /** What `apply_layout_patches` returns when every check passes. */
  ghost function Applied(raw: seq<Block>, patches: seq<LayoutPatch>): seq<Block>
    requires forall p | p in patches :: PageLocal(raw, p)
  {
    Renumber(Emit(raw, RefinedPages(raw, patches, ExcludedIds(patches)), {}))
  }

  ghost predicate ApplySucceeds(
    raw: seq<Block>, patches: seq<LayoutPatch>, captured: Option<seq<int>>, allowExclusions: bool)
  {
    && PatchesAccepted(raw, patches, captured, allowExclusions)
    && (forall p | p in patches :: PageLocal(raw, p))
    && PagesValid(RefinedPages(raw, patches, ExcludedIds(patches)))
    && Applied(raw, patches) != []
  }

  lemma AllPageLocal(raw: seq<Block>, patches: seq<LayoutPatch>)
    requires ExactPermutations(raw, patches) && forall p | p in patches :: ValidPatch(p)
    ensures forall p | p in patches :: PageLocal(raw, p)
  {
    forall p | p in patches ensures PageLocal(raw, p) {
      PatchShape(p);
      PatchLocal(raw, p);
    }
  }

  method ApplyLayoutPatches(
    raw: seq<Block>, patches: seq<LayoutPatch>, captured: Option<seq<int>>, allowExclusions: bool)
    returns (r: Result<seq<Block>>)
    requires forall p | p in patches :: ValidPatch(p)
    ensures r.Ok? <==> ApplySucceeds(raw, patches, captured, allowExclusions)
    ensures r.Ok? ==> r.value == Applied(raw, patches)
  {
    var ok := CheckPatches(raw, patches, captured, allowExclusions);
    if !ok {
      r := Err("layout patches are rejected");
    } else {
      AllPageLocal(raw, patches);
      r := EmitRefined(raw, patches);
    }
  }

  /** The refined blocks renumbered, or a failure when none remain. */
  method EmitRefined(raw: seq<Block>, patches: seq<LayoutPatch>) returns (r: Result<seq<Block>>)
    requires ExactPermutations(raw, patches) && forall p | p in patches :: PageLocal(raw, p)
    ensures r.Ok? <==> PagesValid(RefinedPages(raw, patches, ExcludedIds(patches))) && Applied(raw, patches) != []
    ensures r.Ok? ==> r.value == Applied(raw, patches)
  {
    r := EmitBlocks(raw, patches, ExcludedIds(patches));
    if r.Ok? {
      r := if r.value == [] then Err("layout refinement removed every retrieval block") else Ok(Renumber(r.value));
    }
  }

  lemma EmitStep(rest: seq<Block>, pages: Pages, emitted: set<int>, ordered: seq<Block>, whole: seq<Block>)
    requires rest != [] && ordered + Emit(rest, pages, emitted) == whole
    ensures var page := PrimaryPage(rest[0]);
      if page.None? || page.value !in pages then (ordered + [rest[0]]) + Emit(rest[1..], pages, emitted) == whole
      else if page.value in emitted then ordered + Emit(rest[1..], pages, emitted) == whole
      else (ordered + pages[page.value]) + Emit(rest[1..], pages, emitted + {page.value}) == whole
  {
  }

  /** The loop over the raw blocks with its set of pages already emitted. */
  method EmitBlocks(raw: seq<Block>, patches: seq<LayoutPatch>, excluded: set<string>) returns (r: Result<seq<Block>>)
    requires ExactPermutations(raw, patches) && forall p | p in patches :: PageLocal(raw, p)
    ensures var pages := RefinedPages(raw, patches, excluded);
      && (r.Ok? <==> PagesValid(pages))
      && (r.Ok? ==> r.value == Emit(raw, pages, {}))
  {
    ghost var pages := RefinedPages(raw, patches, excluded);
    var ordered: seq<Block> := [];
    var emittedPages: set<int> := {};
    for i := 0 to |raw|
      invariant ordered + Emit(raw[i..], pages, emittedPages) == Emit(raw, pages, {})
      invariant emittedPages <= pages.Keys
      invariant forall page | page in emittedPages :: AllValid(pages[page])
      invariant forall j | 0 <= j < i :: PageEmitted(raw[j], pages, emittedPages)
    {
      EmitStep(raw[i..], pages, emittedPages, ordered, Emit(raw, pages, {}));
      assert raw[i..][0] == raw[i] && raw[i..][1..] == raw[i + 1..];
      var page := PrimaryPage(raw[i]);
      var patch := PatchFor(patches, page);
      if patch.None? {
        ordered := ordered + [raw[i]];
      } else if page.value !in emittedPages {
        assert page.value in pages && pages[page.value] == RefinedPage(raw, patch.value, excluded);
        emittedPages := emittedPages + {page.value};
        var refined := RefinePage(raw, patch.value, excluded);
        if refined.Err? { return Err(refined.error); }
        ordered := ordered + refined.value;
      }
    }
    EveryPageEmitted(raw, patches, emittedPages, pages);
    return Ok(ordered);
  }

  ghost predicate AllValid(blocks: seq<Block>) {
    forall b | b in blocks :: ValidBlock(b)
  }

  ghost predicate PageEmitted(b: Block, pages: Pages, emitted: set<int>) {
    PrimaryPage(b).Some? && PrimaryPage(b).value in pages ==> PrimaryPage(b).value in emitted
  }

  lemma EveryPageEmitted(raw: seq<Block>, patches: seq<LayoutPatch>, emitted: set<int>, pages: Pages)
    requires ExactPermutations(raw, patches) && pages.Keys == PatchedPages(patches)
    requires emitted <= pages.Keys
    requires forall j | 0 <= j < |raw| :: PageEmitted(raw[j], pages, emitted)
    ensures emitted == pages.Keys
  {
    forall page | page in pages ensures page in emitted {
      var p :| p in patches && p.pageNo == page;
      var kept := Filter(raw, OnPage(page));
      assert kept != [];
      var j :| 0 <= j < |raw| && raw[j] == kept[0];
    }
  }

  lemma RefinedHere(raw: seq<Block>, patch: LayoutPatch, excluded: set<string>, id: string)
    requires PageLocal(raw, patch) && id in patch.order && id !in excluded
    ensures Refine(raw, RelationsOf(patch, id), BlockById(raw, id)) in RefinedPage(raw, patch, excluded)
  {
    var ids := Filter(patch.order, Retained(excluded));
    FilterKeeps(patch.order, Retained(excluded), id);
    var i :| 0 <= i < |ids| && ids[i] == id;
    assert RefineIds(raw, patch, ids)[i] == Refine(raw, RelationsOf(patch, id), BlockById(raw, id));
  }

  /** The retained blocks among the first `i` of the patch, refined. */
  ghost function RefinedUpTo(raw: seq<Block>, patch: LayoutPatch, excluded: set<string>, i: nat): seq<Block>
    requires PageLocal(raw, patch) && i <= |patch.order|
  {
    RefineIds(raw, patch, Filter(patch.order[..i], Retained(excluded)))
  }

  lemma RefinedSnoc(raw: seq<Block>, patch: LayoutPatch, excluded: set<string>, i: nat)
    requires PageLocal(raw, patch) && i < |patch.order|
    ensures var id := patch.order[i];
      RefinedUpTo(raw, patch, excluded, i + 1) == RefinedUpTo(raw, patch, excluded, i) +
        if id in excluded then [] else [Refine(raw, RelationsOf(patch, id), BlockById(raw, id))]
  {
    var retained := Retained(excluded);
    assert patch.order[..i + 1] == patch.order[..i] + [patch.order[i]];
    FilterConcat(patch.order[..i], [patch.order[i]], retained);
    if patch.order[i] !in excluded {
      RefineConcat(raw, patch, Filter(patch.order[..i], retained), [patch.order[i]]);
    }
  }

  lemma RefinedAll(raw: seq<Block>, patch: LayoutPatch, excluded: set<string>)
    requires PageLocal(raw, patch)
    ensures RefinedUpTo(raw, patch, excluded, |patch.order|) == RefinedPage(raw, patch, excluded)
    ensures RefinedUpTo(raw, patch, excluded, 0) == []
  {
    assert patch.order[..|patch.order|] == patch.order;
  }

  lemma AllValidSnoc(blocks: seq<Block>, b: Block)
    ensures AllValid(blocks + [b]) <==> AllValid(blocks) && ValidBlock(b)
  {
  }

  lemma InvalidHere(raw: seq<Block>, patch: LayoutPatch, excluded: set<string>, id: string)
    requires PageLocal(raw, patch) && id in patch.order && id !in excluded
    requires !ValidBlock(Refine(raw, RelationsOf(patch, id), BlockById(raw, id)))
    ensures !AllValid(RefinedPage(raw, patch, excluded))
  {
    RefinedHere(raw, patch, excluded, id);
  }

  /** One iteration: skip an excluded block, otherwise refine and check it. */
  method RefineNext(raw: seq<Block>, patch: LayoutPatch, excluded: set<string>, i: nat, refined: seq<Block>)
    returns (valid: bool, next: seq<Block>)
    requires PageLocal(raw, patch) && i < |patch.order|
    requires refined == RefinedUpTo(raw, patch, excluded, i) && AllValid(refined)
    ensures valid ==> next == RefinedUpTo(raw, patch, excluded, i + 1) && AllValid(next)
    ensures !valid ==> !AllValid(RefinedPage(raw, patch, excluded))
  {
    var id := patch.order[i];
    RefinedSnoc(raw, patch, excluded, i);
    valid, next := true, refined;
    if id !in excluded {
      var block := Refine(raw, RelationsOf(patch, id), BlockById(raw, id));
      valid := ValidBlock(block);
      AllValidSnoc(refined, block);
      if !valid { InvalidHere(raw, patch, excluded, id); }
      next := refined + [block];
    }
  }

  /** The inner loop: the retained blocks of one patch, refined in patch order. */
  method RefinePage(raw: seq<Block>, patch: LayoutPatch, excluded: set<string>) returns (r: Result<seq<Block>>)
    requires PageLocal(raw, patch)
    ensures r.Ok? <==> AllValid(RefinedPage(raw, patch, excluded))
    ensures r.Ok? ==> r.value == RefinedPage(raw, patch, excluded)
  {
    var refined: seq<Block> := [];
    var i := 0;
    var valid := true;
    RefinedAll(raw, patch, excluded);
    while i < |patch.order| && valid
      invariant 0 <= i <= |patch.order|
      invariant valid ==> refined == RefinedUpTo(raw, patch, excluded, i) && AllValid(refined)
      invariant !valid ==> !AllValid(RefinedPage(raw, patch, excluded))
    {
      valid, refined := RefineNext(raw, patch, excluded, i, refined);
      i := i + 1;
    }
    r := if valid then Ok(refined) else Err("refined block is invalid");
  }

  lemma {:induction false} RefineConcat(raw: seq<Block>, patch: LayoutPatch, a: seq<string>, b: seq<string>)
    requires PageLocal(raw, patch)
    requires forall id | id in a + b :: id in patch.order
    requires (forall id | id in a :: id in patch.order) && (forall id | id in b :: id in patch.order)
    ensures RefineIds(raw, patch, a + b) == RefineIds(raw, patch, a) + RefineIds(raw, patch, b)
  {
  }
}
