/** The two main results about `apply_layout_patches`: what it returns, and that applying the
    same patches to its own result changes nothing (or, after an exclusion, is rejected). */
module LayoutReapply {
  import opened Common
  import opened Layout
  import opened LayoutParse
  import opened LayoutStabilize
  import opened LayoutApply
  import opened LayoutContent

  function Unnumbered(b: Block): Block {
    b.(ordinal := 0)
  }

  /** Blocks up to their ordinals. */
  function Erase(blocks: seq<Block>): (r: seq<Block>)
    ensures |r| == |blocks|
    ensures forall i | 0 <= i < |r| :: r[i] == Unnumbered(blocks[i])
  {
    if blocks == [] then [] else [Unnumbered(blocks[0])] + Erase(blocks[1..])
  }

  lemma EraseRenumber(blocks: seq<Block>)
    ensures Erase(Renumber(blocks)) == Erase(blocks)
  {
    assert forall i | 0 <= i < |blocks| :: Unnumbered(Renumber(blocks)[i]) == Unnumbered(blocks[i]);
  }

  lemma RenumberErase(a: seq<Block>, b: seq<Block>)
    requires Erase(a) == Erase(b)
    ensures Renumber(a) == Renumber(b)
  {
    assert |a| == |b|;
    forall i | 0 <= i < |a| ensures Renumber(a)[i] == Renumber(b)[i] {
      assert Erase(a)[i] == Erase(b)[i];
    }
  }

  lemma {:induction false} EraseFilter(blocks: seq<Block>, keep: Block -> bool)
    requires forall b :: keep(b) == keep(Unnumbered(b))
    ensures Filter(Erase(blocks), keep) == Erase(Filter(blocks, keep))
  {
    if blocks != [] { EraseFilter(blocks[1..], keep); }
  }

  lemma EraseConcat(a: seq<Block>, b: seq<Block>)
    ensures Erase(a + b) == Erase(a) + Erase(b)
  {
  }

  lemma EraseIds(a: seq<Block>, b: seq<Block>)
    requires Erase(a) == Erase(b)
    ensures Ids(a) == Ids(b)
  {
    assert |a| == |b|;
    forall i | 0 <= i < |a| ensures Ids(a)[i] == Ids(b)[i] { assert Erase(a)[i] == Erase(b)[i]; }
  }

  lemma ValidApplicable(raw: seq<Block>, patches: seq<LayoutPatch>, captured: Option<seq<int>>, allow: bool)
    requires PatchesAccepted(raw, patches, captured, allow) && forall p | p in patches :: ValidPatch(p)
    ensures Applicable(raw, patches)
  {
    AllPageLocal(raw, patches);
    forall p | p in patches ensures Distinct(p.order) && p.excluded.Keys == Elements(p.order) {
      PatchDistinct(p);
    }
  }

  /** The raw blocks minus the excluded ones, each once, numbered 0..n-1, content unchanged. */
  ghost predicate Conserves(raw: seq<Block>, out: seq<Block>, excluded: set<string>) {
    && (forall i | 0 <= i < |out| :: out[i].ordinal == i)
    && DistinctIds(out)
    && (forall id :: id in Ids(out) <==> id in Ids(raw) && id !in excluded)
    && forall b | b in out :: b.blockId in Ids(raw) && SameContent(BlockById(raw, b.blockId), b)
  }

  lemma AppliedIds(raw: seq<Block>, patches: seq<LayoutPatch>)
    requires Applicable(raw, patches)
    ensures Ids(Applied(raw, patches)) == Ids(Emit(raw, PagesOf(raw, patches), {}))
  {
    var emitted := Emit(raw, PagesOf(raw, patches), {});
    EraseRenumber(emitted);
    EraseIds(Applied(raw, patches), emitted);
  }

  lemma SameIdsDistinct(a: seq<Block>, b: seq<Block>)
    requires Ids(a) == Ids(b) && DistinctIds(b)
    ensures DistinctIds(a)
  {
    assert |a| == |Ids(a)| == |b|;
    forall i, j | 0 <= i < j < |a| ensures a[i].blockId != a[j].blockId {
      assert Ids(a)[i] == b[i].blockId && Ids(a)[j] == b[j].blockId;
    }
  }

  lemma AppliedBlock(raw: seq<Block>, patches: seq<LayoutPatch>, i: nat)
    requires Applicable(raw, patches) && i < |Applied(raw, patches)|
    ensures var b := Applied(raw, patches)[i];
      b.ordinal == i && b.blockId in Ids(raw) && SameContent(BlockById(raw, b.blockId), b)
  {
    var emitted := Emit(raw, PagesOf(raw, patches), {});
    assert emitted[i] in emitted;
    OutputClass(raw, patches, emitted[i]);
  }

  lemma AppliedConserves(raw: seq<Block>, patches: seq<LayoutPatch>)
    requires Applicable(raw, patches)
    ensures Conserves(raw, Applied(raw, patches), ExcludedIds(patches))
  {
    var out := Applied(raw, patches);
    forall i | 0 <= i < |out|
      ensures out[i].ordinal == i && out[i].blockId in Ids(raw) && SameContent(BlockById(raw, out[i].blockId), out[i])
    {
      AppliedBlock(raw, patches, i);
    }
    AppliedIds(raw, patches);
    EmitDistinct(raw, patches);
    SameIdsDistinct(out, Emit(raw, PagesOf(raw, patches), {}));
    forall id ensures id in Ids(out) <==> id in Ids(raw) && id !in ExcludedIds(patches) {
      EmitMembers(raw, patches, id);
    }
  }

  /** Pages without a patch keep their blocks, and those keep their order. */
  ghost predicate KeepsUnpatched(raw: seq<Block>, out: seq<Block>, pages: Pages) {
    Erase(Filter(out, Unpatched(pages))) == Erase(Filter(raw, Unpatched(pages)))
  }

  lemma AppliedUnpatched(raw: seq<Block>, patches: seq<LayoutPatch>)
    requires Applicable(raw, patches)
    ensures KeepsUnpatched(raw, Applied(raw, patches), PagesOf(raw, patches))
  {
    var pages := PagesOf(raw, patches);
    EraseRenumber(Emit(raw, pages, {}));
    UnpatchedClass(raw, patches);
    EraseFilter(Applied(raw, patches), Unpatched(pages));
    EraseFilter(Emit(raw, pages, {}), Unpatched(pages));
  }

  /** A patched page reads in patch order, without the excluded blocks. */
  ghost predicate ReadsPatch(out: seq<Block>, patch: LayoutPatch, excluded: set<string>) {
    Ids(Filter(out, OnPage(patch.pageNo))) == Filter(patch.order, Retained(excluded))
  }

  lemma AppliedPage(raw: seq<Block>, patches: seq<LayoutPatch>, patch: LayoutPatch)
    requires Applicable(raw, patches) && patch in patches
    ensures ReadsPatch(Applied(raw, patches), patch, ExcludedIds(patches))
  {
    var emitted := Emit(raw, PagesOf(raw, patches), {});
    var out := Applied(raw, patches);
    EraseRenumber(emitted);
    PageClass(raw, patches, patch);
    EraseFilter(out, OnPage(patch.pageNo));
    EraseFilter(emitted, OnPage(patch.pageNo));
    EraseIds(Filter(out, OnPage(patch.pageNo)), Filter(emitted, OnPage(patch.pageNo)));
  }

  /** What `apply_layout_patches` returns whenever it returns. */
  lemma AppliedContent(raw: seq<Block>, patches: seq<LayoutPatch>, captured: Option<seq<int>>, allow: bool)
    requires ApplySucceeds(raw, patches, captured, allow) && forall p | p in patches :: ValidPatch(p)
    ensures Conserves(raw, Applied(raw, patches), ExcludedIds(patches))
    ensures KeepsUnpatched(raw, Applied(raw, patches), PagesOf(raw, patches))
    ensures forall p | p in patches :: ReadsPatch(Applied(raw, patches), p, ExcludedIds(patches))
  {
    ValidApplicable(raw, patches, captured, allow);
    AppliedConserves(raw, patches);
    AppliedUnpatched(raw, patches);
    forall p | p in patches { AppliedPage(raw, patches, p); }
  }

  // ----- emission is idempotent

  ghost function ErasePages(pages: Pages): Pages {
    map page | page in pages :: Erase(pages[page])
  }

  lemma {:induction false} EmitErase(rest: seq<Block>, pages: Pages, emitted: set<int>)
    ensures Erase(Emit(rest, pages, emitted)) == Emit(Erase(rest), ErasePages(pages), emitted)
  {
    if rest != [] {
      var page := PrimaryPage(rest[0]);
      assert Erase(rest)[0] == Unnumbered(rest[0]) && Erase(rest)[1..] == Erase(rest[1..]);
      if page.None? || page.value !in pages {
        EmitErase(rest[1..], pages, emitted);
        EraseConcat([rest[0]], Emit(rest[1..], pages, emitted));
      } else if page.value in emitted {
        EmitErase(rest[1..], pages, emitted);
      } else {
        EmitErase(rest[1..], pages, emitted + {page.value});
        EraseConcat(pages[page.value], Emit(rest[1..], pages, emitted + {page.value}));
      }
    }
  }

  /** Blocks of pages already emitted are skipped. */
  lemma {:induction false} EmitSkips(skipped: seq<Block>, rest: seq<Block>, pages: Pages, emitted: set<int>)
    requires forall b | b in skipped ::
      PrimaryPage(b).Some? && PrimaryPage(b).value in pages && PrimaryPage(b).value in emitted
    ensures Emit(skipped + rest, pages, emitted) == Emit(rest, pages, emitted)
  {
    if skipped == [] {
      assert skipped + rest == rest;
    } else {
      assert skipped[0] in skipped && (skipped + rest)[1..] == skipped[1..] + rest;
      assert forall b | b in skipped[1..] :: b in skipped;
      EmitSkips(skipped[1..], rest, pages, emitted);
    }
  }

  lemma {:induction false} EmitTwice(rest: seq<Block>, pages: Pages, emitted: set<int>)
    requires PagesPaged(pages) && forall page | page in pages :: pages[page] != []
    ensures Emit(Emit(rest, pages, emitted), pages, emitted) == Emit(rest, pages, emitted)
  {
    if rest != [] {
      var page := PrimaryPage(rest[0]);
      if page.None? || page.value !in pages {
        EmitTwice(rest[1..], pages, emitted);
        assert Emit(rest, pages, emitted)[1..] == Emit(rest[1..], pages, emitted);
      } else if page.value in emitted {
        EmitTwice(rest[1..], pages, emitted);
      } else {
        var next := emitted + {page.value};
        EmitTwice(rest[1..], pages, next);
        var block := pages[page.value];
        var tail := Emit(rest[1..], pages, next);
        assert block[0] in block && (block + tail)[1..] == block[1..] + tail;
        assert forall b | b in block[1..] :: b in block;
        EmitSkips(block[1..], tail, pages, next);
      }
    }
  }

  // ----- the second application sees the same document

  /** The same IDs, each carrying the same content. */
  ghost predicate Carried(raw: seq<Block>, out: seq<Block>) {
    && DistinctIds(raw) && DistinctIds(out)
    && (forall id :: id in Ids(out) <==> id in Ids(raw))
    && forall b | b in out :: b.blockId in Ids(raw) && SameContent(BlockById(raw, b.blockId), b)
  }

  lemma CarriedById(raw: seq<Block>, out: seq<Block>, id: string)
    requires Carried(raw, out) && id in Ids(raw)
    ensures id in Ids(out) && SameContent(BlockById(raw, id), BlockById(out, id))
  {
  }

  lemma CarriedRaw(raw: seq<Block>, out: seq<Block>)
    requires Carried(raw, out) && RawAccepted(raw)
    ensures RawAccepted(out) && |out| == |raw|
  {
    IdsDistinct(raw);
    IdsDistinct(out);
    assert Elements(Ids(raw)) == Elements(Ids(out));
    SameElementsPermute(Ids(raw), Ids(out));
  }

  lemma IdsDistinct(blocks: seq<Block>)
    requires DistinctIds(blocks)
    ensures Distinct(Ids(blocks))
  {
    assert forall i | 0 <= i < |blocks| :: Ids(blocks)[i] == blocks[i].blockId;
  }

  lemma CarriedPage(raw: seq<Block>, out: seq<Block>, page: int, id: string)
    requires Carried(raw, out)
    ensures id in IdsOnPage(out, page) <==> id in IdsOnPage(raw, page)
  {
    if id in IdsOnPage(out, page) {
      var kept := Filter(out, OnPage(page));
      var i :| 0 <= i < |kept| && Ids(kept)[i] == id;
      var o := BlockById(raw, id);
      FilterKeeps(raw, OnPage(page), o);
      FoundIn(Filter(raw, OnPage(page)), o);
    }
    if id in IdsOnPage(raw, page) {
      var kept := Filter(raw, OnPage(page));
      var i :| 0 <= i < |kept| && Ids(kept)[i] == id;
      FoundIn(raw, kept[i]);
      CarriedById(raw, out, id);
      BlockOfId(raw, kept[i], BlockById(raw, id));
      var b := BlockById(out, id);
      FilterKeeps(out, OnPage(page), b);
      FoundIn(Filter(out, OnPage(page)), b);
    }
  }

  lemma CarriedPages(raw: seq<Block>, out: seq<Block>, page: int)
    requires Carried(raw, out)
    ensures Elements(IdsOnPage(out, page)) == Elements(IdsOnPage(raw, page))
    ensures IdsOnPage(out, page) == [] <==> IdsOnPage(raw, page) == []
  {
    forall id { CarriedPage(raw, out, page, id); }
    if IdsOnPage(out, page) != [] { assert IdsOnPage(out, page)[0] in IdsOnPage(out, page); }
    if IdsOnPage(raw, page) != [] { assert IdsOnPage(raw, page)[0] in IdsOnPage(raw, page); }
  }

  lemma CarriedAccepted(
    raw: seq<Block>, out: seq<Block>, patches: seq<LayoutPatch>, captured: Option<seq<int>>, allow: bool)
    requires Carried(raw, out) && PatchesAccepted(raw, patches, captured, allow)
    ensures PatchesAccepted(out, patches, captured, allow)
  {
    CarriedRaw(raw, out);
    forall page: int { CarriedPages(raw, out, page); }
    assert ExactPermutations(out, patches);
    assert CapturesCovered(out, patches, captured);
    forall p | p in patches ensures PatchSound(out, p, ExcludedIds(patches)) {
      CarriedHeadings(raw, out, p);
    }
  }

  lemma CarriedHeadings(raw: seq<Block>, out: seq<Block>, patch: LayoutPatch)
    requires Carried(raw, out) && HeadingsAreHeadings(raw, patch)
    ensures HeadingsAreHeadings(out, patch)
  {
    forall id, h | id in patch.headings && h in patch.headings[id]
      ensures h in Ids(out) && h in patch.role && IsHeading(BlockById(out, h).blockLabel, patch.role[h])
    {
      CarriedById(raw, out, h);
    }
  }

  // ----- refining a refined block

  lemma MetadataTwice(m: map<string, string>, parent: Option<string>, group: Option<string>, role: Option<string>)
    ensures var once := RefinedMetadata(m, parent, group, role);
      RefinedMetadata(once, parent, group, role) == once
  {
    assert RefinedMetadata(m, parent, group, role) - LAYOUT_KEYS == m - LAYOUT_KEYS;
  }

  lemma {:induction false} HeadingTextsCarried(raw: seq<Block>, out: seq<Block>, headings: seq<string>)
    requires Carried(raw, out) && forall h | h in headings :: h in Ids(raw)
    ensures (forall h | h in headings :: h in Ids(out)) && HeadingTexts(out, headings) == HeadingTexts(raw, headings)
  {
    assert forall h | h in headings :: h in Ids(out);
    forall i | 0 <= i < |headings| ensures HeadingTexts(out, headings)[i] == HeadingTexts(raw, headings)[i] {
      CarriedById(raw, out, headings[i]);
    }
  }

  lemma RefineTwice(raw: seq<Block>, out: seq<Block>, relations: Relations, original: Block, refined: Block)
    requires Carried(raw, out) && forall h | h in relations.headings :: h in Ids(raw)
    requires Unnumbered(refined) == Unnumbered(Refine(raw, relations, original))
    ensures (forall h | h in relations.headings :: h in Ids(out)) &&
            Unnumbered(Refine(out, relations, refined)) == Unnumbered(refined)
  {
    HeadingTextsCarried(raw, out, relations.headings);
    MetadataTwice(original.metadata, relations.parent, relations.group, relations.role);
  }

  // ----- applying the same patches again

  lemma IdTwice(raw: seq<Block>, patches: seq<LayoutPatch>, patch: LayoutPatch, id: string)
    requires Applicable(raw, patches) && patch in patches && ExcludedIds(patches) == {} && id in patch.order
    requires Carried(raw, Applied(raw, patches)) && PageLocal(Applied(raw, patches), patch)
    ensures Unnumbered(Refine(Applied(raw, patches), RelationsOf(patch, id), BlockById(Applied(raw, patches), id)))
         == Unnumbered(Refine(raw, RelationsOf(patch, id), BlockById(raw, id)))
  {
    var refined := Refine(raw, RelationsOf(patch, id), BlockById(raw, id));
    RefinedHere(raw, patch, {}, id);
    AppliedAt(raw, patches, patch, refined);
    RefineTwice(raw, Applied(raw, patches), RelationsOf(patch, id), BlockById(raw, id),
      BlockById(Applied(raw, patches), id));
  }

  lemma PageTwice(raw: seq<Block>, patches: seq<LayoutPatch>, patch: LayoutPatch)
    requires Applicable(raw, patches) && patch in patches && ExcludedIds(patches) == {}
    requires Carried(raw, Applied(raw, patches)) && PageLocal(Applied(raw, patches), patch)
    ensures Erase(RefinedPage(Applied(raw, patches), patch, {})) == Erase(RefinedPage(raw, patch, {}))
  {
    var ids := Filter(patch.order, Retained({}));
    var once := RefinedPage(raw, patch, {});
    var twice := RefinedPage(Applied(raw, patches), patch, {});
    forall i | 0 <= i < |ids| ensures Unnumbered(twice[i]) == Unnumbered(once[i]) {
      IdTwice(raw, patches, patch, ids[i]);
    }
  }

  /** The output block of a patched ID is its refinement, up to the ordinal. */
  lemma AppliedAt(raw: seq<Block>, patches: seq<LayoutPatch>, patch: LayoutPatch, refined: Block)
    requires Applicable(raw, patches) && patch in patches
    requires refined in RefinedPage(raw, patch, ExcludedIds(patches))
    requires DistinctIds(Applied(raw, patches))
    ensures refined.blockId in Ids(Applied(raw, patches))
    ensures Unnumbered(BlockById(Applied(raw, patches), refined.blockId)) == Unnumbered(refined)
  {
    var emitted := Emit(raw, PagesOf(raw, patches), {});
    var out := Applied(raw, patches);
    PatchForPage(patches, patch);
    PageClass(raw, patches, patch);
    var i :| 0 <= i < |emitted| && emitted[i] == refined;
    assert out[i] == refined.(ordinal := i) && out[i] in out;
    FoundIn(out, out[i]);
    BlockOfId(out, out[i], BlockById(out, refined.blockId));
  }

  lemma SamePages(a: Pages, b: Pages)
    requires a.Keys == b.Keys && forall page | page in a :: Erase(a[page]) == Erase(b[page])
    ensures ErasePages(a) == ErasePages(b)
  {
    assert ErasePages(a).Keys == a.Keys && ErasePages(b).Keys == b.Keys;
    assert forall page | page in a :: ErasePages(a)[page] == ErasePages(b)[page];
  }

  lemma PagesTwice(raw: seq<Block>, patches: seq<LayoutPatch>)
    requires Applicable(raw, patches) && ExcludedIds(patches) == {} && Carried(raw, Applied(raw, patches))
    requires forall p | p in patches :: PageLocal(Applied(raw, patches), p)
    ensures PagesOf(Applied(raw, patches), patches).Keys == PagesOf(raw, patches).Keys
    ensures forall page | page in PagesOf(raw, patches) ::
              Erase(PagesOf(Applied(raw, patches), patches)[page]) == Erase(PagesOf(raw, patches)[page])
  {
    var out := Applied(raw, patches);
    var once := PagesOf(raw, patches);
    var twice := PagesOf(out, patches);
    forall page | page in once ensures Erase(twice[page]) == Erase(once[page]) {
      var patch := PatchFor(patches, Some(page)).value;
      PageTwice(raw, patches, patch);
      assert once[page] == RefinedPage(raw, patch, {}) && twice[page] == RefinedPage(out, patch, {});
    }
  }

  lemma AppliedTwice(raw: seq<Block>, patches: seq<LayoutPatch>)
    requires Applicable(raw, patches) && ExcludedIds(patches) == {} && Carried(raw, Applied(raw, patches))
    requires forall p | p in patches :: PageLocal(Applied(raw, patches), p)
    ensures Applied(Applied(raw, patches), patches) == Applied(raw, patches)
  {
    var out := Applied(raw, patches);
    var pages := PagesOf(raw, patches);
    var erased := ErasePages(pages);
    PagesTwice(raw, patches);
    SamePages(PagesOf(out, patches), pages);
    EmitErase(out, PagesOf(out, patches), {});
    EmitErase(raw, pages, {});
    EraseRenumber(Emit(raw, pages, {}));
    ErasedWell(raw, patches);
    EmitTwice(Erase(raw), erased, {});
    RenumberErase(Emit(out, PagesOf(out, patches), {}), Emit(raw, pages, {}));
  }

  lemma ErasedWell(raw: seq<Block>, patches: seq<LayoutPatch>)
    requires Applicable(raw, patches) && ExcludedIds(patches) == {}
    ensures var erased := ErasePages(PagesOf(raw, patches));
      PagesPaged(erased) && forall page | page in erased :: erased[page] != []
  {
    var pages := PagesOf(raw, patches);
    PagesOfPaged(raw, patches);
    forall page | page in pages
      ensures pages[page] != [] && forall b | b in Erase(pages[page]) :: PrimaryPage(b) == Some(page)
    {
      var patch := PatchFor(patches, Some(page)).value;
      PageClass(raw, patches, patch);
      FilterAll(patch.order, Retained({}));
      assert Elements(patch.order) == Elements(IdsOnPage(raw, page)) &&
        IdsOnPage(raw, page)[0] in Elements(patch.order);
      forall b | b in Erase(pages[page]) ensures PrimaryPage(b) == Some(page) {
        var i :| 0 <= i < |pages[page]| && b == Unnumbered(pages[page][i]);
      }
    }
  }

  lemma ConservesCarries(raw: seq<Block>, out: seq<Block>)
    requires DistinctIds(raw) && Conserves(raw, out, {})
    ensures Carried(raw, out)
  {
  }

  lemma LocalTwice(raw: seq<Block>, out: seq<Block>, patch: LayoutPatch)
    requires Carried(raw, out) && PageLocal(raw, patch)
    ensures PageLocal(out, patch)
  {
  }

  lemma StaysValid(once: seq<Block>, twice: seq<Block>)
    requires Erase(once) == Erase(twice) && AllValid(once) && forall b | b in twice :: b.ordinal >= 0
    ensures AllValid(twice)
  {
    assert |once| == |twice|;
    forall b | b in twice ensures ValidBlock(b) {
      var i :| 0 <= i < |twice| && twice[i] == b;
      assert Erase(twice)[i] == Erase(once)[i];
      assert ValidBlock(once[i]);
    }
  }

  lemma PagesStayValid(once: Pages, twice: Pages)
    requires once.Keys == twice.Keys && forall page | page in once :: Erase(twice[page]) == Erase(once[page])
    requires PagesValid(once)
    requires forall page | page in twice :: forall b | b in twice[page] :: b.ordinal >= 0
    ensures PagesValid(twice)
  {
    forall page | page in twice ensures AllValid(twice[page]) { StaysValid(once[page], twice[page]); }
  }

  lemma RefinedOrdinal(out: seq<Block>, patches: seq<LayoutPatch>, page: int, b: Block)
    requires forall p | p in patches :: PageLocal(out, p)
    requires page in PagesOf(out, patches) && b in PagesOf(out, patches)[page]
    requires forall i | 0 <= i < |out| :: out[i].ordinal == i
    ensures b.ordinal >= 0
  {
    var patch := PatchFor(patches, Some(page)).value;
    var ids := Filter(patch.order, Retained(ExcludedIds(patches)));
    var i :| 0 <= i < |ids| && RefineIds(out, patch, ids)[i] == b;
    assert ids[i] in patch.order;
    var o := BlockById(out, ids[i]);
    assert o in out;
  }

  /** Without exclusions the patches are a fixed point of their own result. */
  lemma ReapplyUnchanged(raw: seq<Block>, patches: seq<LayoutPatch>, captured: Option<seq<int>>, allow: bool)
    requires forall p | p in patches :: ValidPatch(p)
    requires ApplySucceeds(raw, patches, captured, allow) && ExcludedIds(patches) == {}
    ensures ApplySucceeds(Applied(raw, patches), patches, captured, allow)
    ensures Applied(Applied(raw, patches), patches) == Applied(raw, patches)
  {
    var out := Applied(raw, patches);
    ValidApplicable(raw, patches, captured, allow);
    AppliedConserves(raw, patches);
    ConservesCarries(raw, out);
    CarriedAccepted(raw, out, patches, captured, allow);
    forall p | p in patches ensures PageLocal(out, p) { LocalTwice(raw, out, p); }
    AppliedTwice(raw, patches);
    PagesTwice(raw, patches);
    forall page, b | page in PagesOf(out, patches) && b in PagesOf(out, patches)[page] ensures b.ordinal >= 0 {
      RefinedOrdinal(out, patches, page, b);
    }
    PagesStayValid(PagesOf(raw, patches), PagesOf(out, patches));
  }

  /** After any exclusion the same patches no longer fit: the excluded block is missing. */
  lemma ReapplyRejected(raw: seq<Block>, patches: seq<LayoutPatch>, captured: Option<seq<int>>, allow: bool)
    requires forall p | p in patches :: ValidPatch(p)
    requires ApplySucceeds(raw, patches, captured, allow) && ExcludedIds(patches) != {}
    ensures !ApplySucceeds(Applied(raw, patches), patches, captured, allow)
  {
    var out := Applied(raw, patches);
    ValidApplicable(raw, patches, captured, allow);
    AppliedConserves(raw, patches);
    var id :| id in ExcludedIds(patches);
    ExcludedMember(patches, id);
    var p :| p in patches && id in ExcludedBy(p);
    assert id in Elements(p.order);
    if id in IdsOnPage(out, p.pageNo) {
      PageIdsLocal(out, p.pageNo);
      assert false;
    }
  }
}
