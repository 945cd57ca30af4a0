/** Layout refinement never loses, duplicates or rewrites content: what the list returned by
    `apply_layout_patches` contains, and why applying the same patches again changes nothing. */
module LayoutContent {
  import opened Common
  import opened Layout
  import opened LayoutParse
  import opened LayoutStabilize
  import opened LayoutApply

  /** Everything but reading position, section ancestry and layout metadata is the same. */
  predicate SameContent(a: Block, b: Block) {
    && a.blockId == b.blockId && a.sourceId == b.sourceId && a.sourceRevision == b.sourceRevision
    && a.modality == b.modality && a.blockLabel == b.blockLabel && a.text == b.text
    && a.provenance == b.provenance && a.imageDataUri == b.imageDataUri
    && a.metadata - LAYOUT_KEYS == b.metadata - LAYOUT_KEYS
  }

  function Unpatched(pages: Pages): Block -> bool {
    b => PrimaryPage(b).None? || PrimaryPage(b).value !in pages
  }

  /** Patched pages hold blocks of that page only. */
  ghost predicate PagesPaged(pages: Pages) {
    forall page | page in pages :: forall b | b in pages[page] :: PrimaryPage(b) == Some(page)
  }

  lemma {:induction false} EmitUnpatched(rest: seq<Block>, pages: Pages, emitted: set<int>)
    requires PagesPaged(pages)
    ensures Filter(Emit(rest, pages, emitted), Unpatched(pages)) == Filter(rest, Unpatched(pages))
  {
    if rest != [] {
      var page := PrimaryPage(rest[0]);
      if page.None? || page.value !in pages {
        EmitUnpatched(rest[1..], pages, emitted);
      } else if page.value in emitted {
        EmitUnpatched(rest[1..], pages, emitted);
      } else {
        EmitUnpatched(rest[1..], pages, emitted + {page.value});
        FilterConcat(pages[page.value], Emit(rest[1..], pages, emitted + {page.value}), Unpatched(pages));
        FilterNone(pages[page.value], Unpatched(pages));
      }
    }
  }

  /** A page's blocks all lie on it. */
  lemma PageThen(pages: Pages, here: int, rest: seq<Block>, page: int)
    requires PagesPaged(pages) && here in pages && page in pages
    ensures Filter(pages[here] + rest, OnPage(page)) == (if here == page then pages[page] else [])
      + Filter(rest, OnPage(page))
  {
    FilterConcat(pages[here], rest, OnPage(page));
    if here == page { FilterAll(pages[page], OnPage(page)); } else { FilterNone(pages[here], OnPage(page)); }
  }

  lemma OnPageHead(b: Block, rest: seq<Block>, page: int)
    ensures Filter([b] + rest, OnPage(page)) == (if PrimaryPage(b) == Some(page) then [b] else [])
      + Filter(rest, OnPage(page))
  {
    assert ([b] + rest)[1..] == rest;
  }

  /** What the first raw block contributes to the emitted blocks of a page. */
  lemma EmitHead(rest: seq<Block>, pages: Pages, emitted: set<int>, page: int)
    requires PagesPaged(pages) && page in pages && rest != []
    ensures var here := PrimaryPage(rest[0]);
      Filter(Emit(rest, pages, emitted), OnPage(page)) ==
      if here.None? || here.value !in pages || here.value in emitted
        then Filter(Emit(rest[1..], pages, emitted), OnPage(page))
      else (if here.value == page then pages[page] else [])
           + Filter(Emit(rest[1..], pages, emitted + {here.value}), OnPage(page))
  {
    var here := PrimaryPage(rest[0]);
    if here.None? || here.value !in pages {
      OnPageHead(rest[0], Emit(rest[1..], pages, emitted), page);
    } else if here.value !in emitted {
      PageThen(pages, here.value, Emit(rest[1..], pages, emitted + {here.value}), page);
    }
  }

  lemma {:induction false} EmitPage(rest: seq<Block>, pages: Pages, emitted: set<int>, page: int)
    requires PagesPaged(pages) && page in pages
    ensures Filter(Emit(rest, pages, emitted), OnPage(page)) ==
            if page in emitted || Filter(rest, OnPage(page)) == [] then [] else pages[page]
  {
    if rest != [] {
      var here := PrimaryPage(rest[0]);
      EmitHead(rest, pages, emitted, page);
      assert rest == [rest[0]] + rest[1..];
      OnPageHead(rest[0], rest[1..], page);
      if here.None? || here.value !in pages || here.value in emitted {
        EmitPage(rest[1..], pages, emitted, page);
      } else {
        EmitPage(rest[1..], pages, emitted + {here.value}, page);
      }
    }
  }

  // ----- the pages that patches contribute

  lemma RefineContent(raw: seq<Block>, relations: Relations, original: Block)
    requires forall h | h in relations.headings :: h in Ids(raw)
    ensures SameContent(original, Refine(raw, relations, original))
  {
    var m := original.metadata;
    var r := RefinedMetadata(m, relations.parent, relations.group, relations.role);
    assert r - LAYOUT_KEYS == m - LAYOUT_KEYS;
  }

  lemma RefinedPageFacts(raw: seq<Block>, patch: LayoutPatch, excluded: set<string>)
    requires PageLocal(raw, patch) && DistinctIds(raw) && PermutesPage(raw, patch)
    ensures var refined := RefinedPage(raw, patch, excluded);
      && Ids(refined) == Filter(patch.order, Retained(excluded))
      && (forall b | b in refined :: b.blockId in Ids(raw) && SameContent(BlockById(raw, b.blockId), b))
      && (forall b | b in refined :: PrimaryPage(b) == Some(patch.pageNo))
  {
    var ids := Filter(patch.order, Retained(excluded));
    var refined := RefinedPage(raw, patch, excluded);
    forall i | 0 <= i < |refined|
      ensures refined[i].blockId == ids[i]
      ensures SameContent(BlockById(raw, refined[i].blockId), refined[i])
      ensures PrimaryPage(refined[i]) == Some(patch.pageNo)
    {
      assert ids[i] in patch.order;
      RefineContent(raw, RelationsOf(patch, ids[i]), BlockById(raw, ids[i]));
      OnItsPage(raw, patch, ids[i]);
    }
  }

  lemma OnItsPage(raw: seq<Block>, patch: LayoutPatch, id: string)
    requires DistinctIds(raw) && PermutesPage(raw, patch) && id in patch.order && id in Ids(raw)
    ensures PrimaryPage(BlockById(raw, id)) == Some(patch.pageNo)
  {
    assert id in Elements(patch.order) && id in IdsOnPage(raw, patch.pageNo);
    var kept := Filter(raw, OnPage(patch.pageNo));
    var i :| 0 <= i < |kept| && Ids(kept)[i] == id;
    BlockOfId(raw, kept[i], BlockById(raw, id));
  }

  lemma PatchForPage(patches: seq<LayoutPatch>, patch: LayoutPatch)
    requires patch in patches
    requires forall i, j | 0 <= i < j < |patches| :: patches[i].pageNo != patches[j].pageNo
    ensures PatchFor(patches, Some(patch.pageNo)) == Some(patch)
  {
    var found := PatchFor(patches, Some(patch.pageNo)).value;
    var i :| 0 <= i < |patches| && patches[i] == found;
    var j :| 0 <= j < |patches| && patches[j] == patch;
    assert i == j;
  }

  // ----- the setting shared by the results below

  ghost predicate Applicable(raw: seq<Block>, patches: seq<LayoutPatch>) {
    && DistinctIds(raw)
    && ExactPermutations(raw, patches)
    && (forall p | p in patches :: Distinct(p.order) && p.excluded.Keys == Elements(p.order))
    && forall p | p in patches :: PageLocal(raw, p)
  }

  ghost function PagesOf(raw: seq<Block>, patches: seq<LayoutPatch>): Pages
    requires forall p | p in patches :: PageLocal(raw, p)
  {
    RefinedPages(raw, patches, ExcludedIds(patches))
  }

  lemma PagesOfPaged(raw: seq<Block>, patches: seq<LayoutPatch>)
    requires Applicable(raw, patches)
    ensures PagesPaged(PagesOf(raw, patches))
  {
    var pages := PagesOf(raw, patches);
    forall page | page in pages ensures forall b | b in pages[page] :: PrimaryPage(b) == Some(page) {
      var patch := PatchFor(patches, Some(page)).value;
      RefinedPageFacts(raw, patch, ExcludedIds(patches));
    }
  }

  /** The output on one patched page: the patch's retained IDs in patch order, each the raw
      block of that ID with its content unchanged. */
  lemma PageClass(raw: seq<Block>, patches: seq<LayoutPatch>, patch: LayoutPatch)
    requires Applicable(raw, patches) && patch in patches
    ensures var pages := PagesOf(raw, patches);
      && patch.pageNo in pages
      && Filter(Emit(raw, pages, {}), OnPage(patch.pageNo)) == pages[patch.pageNo]
      && Ids(pages[patch.pageNo]) == Filter(patch.order, Retained(ExcludedIds(patches)))
      && (forall b | b in pages[patch.pageNo] :: b.blockId in Ids(raw) && SameContent(BlockById(raw, b.blockId), b))
  {
    PatchForPage(patches, patch);
    PagesOfPaged(raw, patches);
    EmitPage(raw, PagesOf(raw, patches), {}, patch.pageNo);
    RefinedPageFacts(raw, patch, ExcludedIds(patches));
  }

  lemma IdsDistinct(page: seq<Block>, order: seq<string>, keep: string -> bool)
    requires Ids(page) == Filter(order, keep) && Distinct(order)
    ensures DistinctIds(page)
  {
    FilterDistinct(order, keep);
    assert forall i | 0 <= i < |page| :: Ids(page)[i] == page[i].blockId;
  }

  lemma PageClassDistinct(raw: seq<Block>, patches: seq<LayoutPatch>, patch: LayoutPatch)
    requires Applicable(raw, patches) && patch in patches
    ensures patch.pageNo in PagesOf(raw, patches) && DistinctIds(PagesOf(raw, patches)[patch.pageNo])
  {
    PageClass(raw, patches, patch);
    IdsDistinct(PagesOf(raw, patches)[patch.pageNo], patch.order, Retained(ExcludedIds(patches)));
  }

  lemma UnpatchedClass(raw: seq<Block>, patches: seq<LayoutPatch>)
    requires Applicable(raw, patches)
    ensures var pages := PagesOf(raw, patches);
      var members := Filter(Emit(raw, pages, {}), Unpatched(pages));
      && members == Filter(raw, Unpatched(pages)) && DistinctIds(members)
      && forall b | b in members :: b in raw && b.blockId in Ids(raw) && BlockById(raw, b.blockId) == b
  {
    var pages := PagesOf(raw, patches);
    PagesOfPaged(raw, patches);
    EmitUnpatched(raw, pages, {});
    FilterIds(raw, Unpatched(pages));
    forall b | b in Filter(raw, Unpatched(pages))
      ensures b in raw && b.blockId in Ids(raw) && BlockById(raw, b.blockId) == b
    {
      var k :| 0 <= k < |raw| && raw[k] == b;
      assert Ids(raw)[k] == b.blockId;
      BlockOfId(raw, b, BlockById(raw, b.blockId));
    }
  }

  /** The class of a block in the output: the blocks left alone, or one patched page. */
  ghost function ClassOf(b: Block, pages: Pages): Block -> bool {
    if Unpatched(pages)(b) then Unpatched(pages) else OnPage(PrimaryPage(b).value)
  }

  /** Every output block is a raw block with the same content, alone of its ID in its class. */
  lemma OutputClass(raw: seq<Block>, patches: seq<LayoutPatch>, b: Block)
    requires Applicable(raw, patches) && b in Emit(raw, PagesOf(raw, patches), {})
    ensures var pages := PagesOf(raw, patches);
      && DistinctIds(Filter(Emit(raw, pages, {}), ClassOf(b, pages)))
      && b.blockId in Ids(raw) && SameContent(BlockById(raw, b.blockId), b)
  {
    var pages := PagesOf(raw, patches);
    FilterKeeps(Emit(raw, pages, {}), ClassOf(b, pages), b);
    if Unpatched(pages)(b) {
      UnpatchedClass(raw, patches);
    } else {
      var patch := PatchFor(patches, PrimaryPage(b)).value;
      PageClass(raw, patches, patch);
      PageClassDistinct(raw, patches, patch);
    }
  }

  lemma EmitDistinct(raw: seq<Block>, patches: seq<LayoutPatch>)
    requires Applicable(raw, patches)
    ensures DistinctIds(Emit(raw, PagesOf(raw, patches), {}))
  {
    var pages := PagesOf(raw, patches);
    var out := Emit(raw, pages, {});
    forall i, j | 0 <= i < j < |out| ensures out[i].blockId != out[j].blockId {
      OutputClass(raw, patches, out[i]);
      OutputClass(raw, patches, out[j]);
      if out[i].blockId == out[j].blockId {
        var keep := ClassOf(out[i], pages);
        assert PrimaryPage(out[i]) == PrimaryPage(out[j]);
        FilterAt(out, keep, i);
        FilterAt(out, keep, j);
        FilterAtOrder(out, keep, i, j);
      }
    }
  }

  lemma {:induction false} ExcludedMember(patches: seq<LayoutPatch>, id: string)
    ensures id in ExcludedIds(patches) <==> exists p | p in patches :: id in ExcludedBy(p)
  {
    if patches != [] {
      ExcludedMember(patches[1..], id);
      assert patches[0] in patches;
      assert forall p :: p in patches <==> p == patches[0] || p in patches[1..];
    }
  }

  /** An ID survives exactly when it is a raw block's and no patch excludes it. */
  lemma EmitMembers(raw: seq<Block>, patches: seq<LayoutPatch>, id: string)
    requires Applicable(raw, patches)
    ensures id in Ids(Emit(raw, PagesOf(raw, patches), {})) <==> id in Ids(raw) && id !in ExcludedIds(patches)
  {
    var pages := PagesOf(raw, patches);
    var out := Emit(raw, pages, {});
    PagesOfPaged(raw, patches);
    if id in Ids(out) {
      var i :| 0 <= i < |out| && Ids(out)[i] == id;
      OutputClass(raw, patches, out[i]);
      if id in ExcludedIds(patches) { ExcludedAbsent(raw, patches, out[i]); }
    }
    if id in Ids(raw) && id !in ExcludedIds(patches) {
      var b := BlockById(raw, id);
      if Unpatched(pages)(b) {
        UnpatchedClass(raw, patches);
        FilterKeeps(raw, Unpatched(pages), b);
        FoundIn(out, b);
      } else {
        RetainedPresent(raw, patches, b);
      }
    }
  }

  lemma FoundIn(blocks: seq<Block>, b: Block)
    requires b in blocks
    ensures b.blockId in Ids(blocks)
  {
    var i :| 0 <= i < |blocks| && blocks[i] == b;
    assert Ids(blocks)[i] == b.blockId;
  }

  lemma OnPageAbsent(raw: seq<Block>, patches: seq<LayoutPatch>, patch: LayoutPatch, b: Block)
    requires Applicable(raw, patches) && patch in patches
    requires b in Emit(raw, PagesOf(raw, patches), {}) && PrimaryPage(b) == Some(patch.pageNo)
    ensures b.blockId !in ExcludedIds(patches)
  {
    PageClass(raw, patches, patch);
    FilterKeeps(Emit(raw, PagesOf(raw, patches), {}), OnPage(patch.pageNo), b);
    FoundIn(PagesOf(raw, patches)[patch.pageNo], b);
    var i :| 0 <= i < |Filter(patch.order, Retained(ExcludedIds(patches)))|
          && Filter(patch.order, Retained(ExcludedIds(patches)))[i] == b.blockId;
    assert Retained(ExcludedIds(patches))(b.blockId);
  }

  lemma ExcludedAbsent(raw: seq<Block>, patches: seq<LayoutPatch>, b: Block)
    requires Applicable(raw, patches) && b in Emit(raw, PagesOf(raw, patches), {})
    ensures b.blockId !in ExcludedIds(patches)
  {
    OutputClass(raw, patches, b);
    ExcludedMember(patches, b.blockId);
    if p :| p in patches && b.blockId in ExcludedBy(p) {
      assert b.blockId in Elements(p.order);
      OnItsPage(raw, p, b.blockId);
      OnPageAbsent(raw, patches, p, b);
    }
  }

  lemma RetainedPresent(raw: seq<Block>, patches: seq<LayoutPatch>, b: Block)
    requires Applicable(raw, patches) && b in raw && b.blockId !in ExcludedIds(patches)
    requires !Unpatched(PagesOf(raw, patches))(b)
    ensures b.blockId in Ids(Emit(raw, PagesOf(raw, patches), {}))
  {
    var patch := PatchFor(patches, PrimaryPage(b)).value;
    FilterKeeps(raw, OnPage(patch.pageNo), b);
    FoundIn(Filter(raw, OnPage(patch.pageNo)), b);
    assert b.blockId in Elements(IdsOnPage(raw, patch.pageNo));
    PageClass(raw, patches, patch);
    FilterKeeps(patch.order, Retained(ExcludedIds(patches)), b.blockId);
    var members := PagesOf(raw, patches)[patch.pageNo];
    var i :| 0 <= i < |members| && Ids(members)[i] == b.blockId;
    FoundIn(Emit(raw, PagesOf(raw, patches), {}), members[i]);
  }
}
