/** What layout refinement writes on a block: the metadata keys, the section path and the place in the
    document, stated about the returned blocks and the model's responses. */
module LayoutMetadata {
  import opened Common
  import opened Text
  import opened Layout
  import opened LayoutParse
  import opened LayoutStabilize
  import opened LayoutApply
  import opened LayoutContent
  import opened LayoutReapply
  import opened LayoutPipeline
  import opened LayoutResponse
  import opened LayoutReading

  // ----- headings

  function FirstChars(s: string, n: nat): string {
    if |s| <= n then s else s[..n]
  }

  // ----- one block

  /** The key holds the value, or is absent when there is none. */
  predicate Holds(metadata: map<string, string>, key: string, value: Option<string>) {
    match value
    case None => key !in metadata
    case Some(v) => key in metadata && metadata[key] == v
  }

  predicate LayoutKey(key: string) {
    key == "layout_parent_block_id" || key == "layout_group_block_id" || key == "layout_role"
  }

  /** Every key layout does not own is as it was. */
  predicate KeepsOthers(before: map<string, string>, after: map<string, string>) {
    && (forall key | key in before && !LayoutKey(key) :: key in after)
    && forall key | key in after && !LayoutKey(key) :: key in before && after[key] == before[key]
  }

  /** The path names the referenced headings in order, or is the block's own when there are none. */
  ghost predicate PathNames(raw: seq<Block>, headings: seq<string>, own: seq<string>, path: seq<string>) {
    if headings == [] then path == own
    else |path| == |headings| && forall i | 0 <= i < |path| :: TextOf(raw, headings[i], path[i])
  }

  /** The text is the first 500 characters of that block's text on one line. */
  ghost predicate TextOf(raw: seq<Block>, id: string, text: string) {
    exists h | h in raw :: h.blockId == id && text == FirstChars(Squeezed(h.text), 500)
  }

  /** The block as the patch refines the original. */
  ghost predicate RefinedFrom(raw: seq<Block>, p: LayoutPatch, original: Block, b: Block) {
    var id := original.blockId;
    && original in raw && id in p.parent && id in p.group && id in p.role && id in p.headings
    && Holds(b.metadata, "layout_parent_block_id", p.parent[id])
    && Holds(b.metadata, "layout_group_block_id", p.group[id])
    && Holds(b.metadata, "layout_role", p.role[id])
    && KeepsOthers(original.metadata, b.metadata)
    && PathNames(raw, p.headings[id], original.sectionPath, b.sectionPath)
    && b == original.(ordinal := b.ordinal, sectionPath := b.sectionPath, metadata := b.metadata)
  }

  lemma KeysDiffer()
    ensures PARENT_KEY != GROUP_KEY && PARENT_KEY != ROLE_KEY && GROUP_KEY != ROLE_KEY
  {
    assert |PARENT_KEY| == 22 && |GROUP_KEY| == 21 && |ROLE_KEY| == 11;
  }

  lemma MetadataWritten(m: map<string, string>, parent: Option<string>, group: Option<string>, role: Option<string>)
    ensures var r := RefinedMetadata(m, parent, group, role);
      && Holds(r, "layout_parent_block_id", parent) && Holds(r, "layout_group_block_id", group)
      && Holds(r, "layout_role", role) && KeepsOthers(m, r)
  {
    KeysDiffer();
    var base := m - LAYOUT_KEYS;
    assert forall key :: key in LAYOUT_KEYS <==> LayoutKey(key);
    assert forall key :: key in base <==> key in m && !LayoutKey(key);
  }

  lemma PathWritten(raw: seq<Block>, headings: seq<string>)
    requires headings != [] && forall h | h in headings :: h in Ids(raw)
    ensures PathNames(raw, headings, [], HeadingTexts(raw, headings))
  {
    var path := HeadingTexts(raw, headings);
    forall i | 0 <= i < |path| ensures TextOf(raw, headings[i], path[i]) {
      var h := BlockById(raw, headings[i]);
      SingleLineMeaning(h.text);
      assert h in raw && h.blockId == headings[i];
    }
  }

  lemma BlockWritten(raw: seq<Block>, p: LayoutPatch, id: string)
    requires ValidPatch(p) && PageLocal(raw, p) && id in p.order
    ensures RefinedFrom(raw, p, BlockById(raw, id), Refine(raw, RelationsOf(p, id), BlockById(raw, id)))
  {
    assert id in Elements(p.order);
    MetadataWritten(BlockById(raw, id).metadata, p.parent[id], p.group[id], p.role[id]);
    if p.headings[id] != [] { PathWritten(raw, p.headings[id]); }
  }

  // ----- the returned blocks

  /** The block, whatever its position. */
  ghost predicate IsRefined(raw: seq<Block>, p: LayoutPatch, b: Block) {
    exists original: Block :: original.blockId == b.blockId && RefinedFrom(raw, p, original, b)
  }

  ghost predicate IsUntouched(raw: seq<Block>, b: Block) {
    exists original: Block :: original in raw && b == original.(ordinal := b.ordinal)
  }

  ghost predicate OnNoPatch(patches: seq<LayoutPatch>, b: Block) {
    forall p | p in patches :: PrimaryPage(b) != Some(p.pageNo)
  }

  lemma PageMember(raw: seq<Block>, patches: seq<LayoutPatch>, p: LayoutPatch, b: Block) returns (id: string)
    requires Applicable(raw, patches) && p in patches
    requires b in Emit(raw, PagesOf(raw, patches), {}) && PrimaryPage(b) == Some(p.pageNo)
    ensures id in p.order && b == Refine(raw, RelationsOf(p, id), BlockById(raw, id))
  {
    PatchForPage(patches, p);
    PageClass(raw, patches, p);
    FilterKeeps(Emit(raw, PagesOf(raw, patches), {}), OnPage(p.pageNo), b);
    var ids := Filter(p.order, Retained(ExcludedIds(patches)));
    var i :| 0 <= i < |ids| && RefineIds(raw, p, ids)[i] == b;
    id := ids[i];
  }

  lemma RefinedRenumbered(raw: seq<Block>, p: LayoutPatch, original: Block, b: Block, i: nat)
    requires RefinedFrom(raw, p, original, b)
    ensures RefinedFrom(raw, p, original, b.(ordinal := i))
  {
  }

  lemma PatchedBlock(raw: seq<Block>, patches: seq<LayoutPatch>, p: LayoutPatch, i: nat)
    requires Applicable(raw, patches) && p in patches && ValidPatch(p)
    requires i < |Applied(raw, patches)| && PrimaryPage(Applied(raw, patches)[i]) == Some(p.pageNo)
    ensures IsRefined(raw, p, Applied(raw, patches)[i])
  {
    var emitted := Emit(raw, PagesOf(raw, patches), {});
    var id := PageMember(raw, patches, p, emitted[i]);
    BlockWritten(raw, p, id);
    RefinedRenumbered(raw, p, BlockById(raw, id), emitted[i], i);
  }

  lemma NoPatchUnpatched(patches: seq<LayoutPatch>, pages: Pages, b: Block)
    requires pages.Keys == PatchedPages(patches) && OnNoPatch(patches, b)
    ensures Unpatched(pages)(b)
  {
  }

  lemma UnpatchedBlock(raw: seq<Block>, patches: seq<LayoutPatch>, i: nat)
    requires Applicable(raw, patches) && i < |Applied(raw, patches)| && OnNoPatch(patches, Applied(raw, patches)[i])
    ensures IsUntouched(raw, Applied(raw, patches)[i])
  {
    var pages := PagesOf(raw, patches);
    var b := Emit(raw, pages, {})[i];
    assert PrimaryPage(b) == PrimaryPage(Applied(raw, patches)[i]);
    NoPatchUnpatched(patches, pages, b);
    UnpatchedClass(raw, patches);
    FilterKeeps(Emit(raw, pages, {}), Unpatched(pages), b);
  }

  /** Every returned block: on a patched page it carries what the patch says of it and nothing else is
      changed; elsewhere only its ordinal is. */
  lemma AppliedMetadata(
    raw: seq<Block>, patches: seq<LayoutPatch>, captured: Option<seq<int>>, allow: bool, i: nat)
    requires ApplySucceeds(raw, patches, captured, allow) && forall p | p in patches :: ValidPatch(p)
    requires i < |Applied(raw, patches)|
    ensures var b := Applied(raw, patches)[i];
      && b.ordinal == i
      && (forall p | p in patches && PrimaryPage(b) == Some(p.pageNo) :: IsRefined(raw, p, b))
      && (OnNoPatch(patches, b) ==> IsUntouched(raw, b))
  {
    var b := Applied(raw, patches)[i];
    ValidApplicable(raw, patches, captured, allow);
    AppliedBlock(raw, patches, i);
    forall p | p in patches && PrimaryPage(b) == Some(p.pageNo) ensures IsRefined(raw, p, b) {
      PatchedBlock(raw, patches, p, i);
    }
    if OnNoPatch(patches, b) { UnpatchedBlock(raw, patches, i); }
  }

  // ----- where the pages stand

  ghost predicate PatchesPage(patches: seq<LayoutPatch>, page: Option<int>) {
    exists p | p in patches :: page == Some(p.pageNo)
  }

  /** Raw block `k` fixes the place of `b`: itself, or the first raw block of its page if that is patched. */
  ghost predicate StandsFor(raw: seq<Block>, patches: seq<LayoutPatch>, b: Block, k: nat) {
    && k < |raw|
    && if PatchesPage(patches, PrimaryPage(b))
       then PrimaryPage(raw[k]) == PrimaryPage(b) && forall j | 0 <= j < k :: PrimaryPage(raw[j]) != PrimaryPage(b)
       else raw[k].blockId == b.blockId
  }

  /** The blocks stand for these raw positions, ascending from `n` on. */
  ghost predicate StandAt(raw: seq<Block>, patches: seq<LayoutPatch>, out: seq<Block>, places: seq<nat>, n: nat) {
    && |places| == |out|
    && (forall i | 0 <= i < |out| :: n <= places[i] && StandsFor(raw, patches, out[i], places[i]))
    && forall i, j | 0 <= i < j < |places| :: places[i] <= places[j]
  }

  lemma StandJoin(
    raw: seq<Block>, patches: seq<LayoutPatch>, head: seq<Block>, rest: seq<Block>, places: seq<nat>, n: nat)
    returns (all: seq<nat>)
    requires forall b | b in head :: StandsFor(raw, patches, b, n)
    requires StandAt(raw, patches, rest, places, n + 1)
    ensures StandAt(raw, patches, head + rest, all, n)
  {
    var front := seq(|head|, (k: int) => n);
    all := front + places;
    forall i | 0 <= i < |all| ensures n <= all[i] && StandsFor(raw, patches, (head + rest)[i], all[i]) {
      if i < |head| { assert head[i] in head; } else { assert all[i] == places[i - |head|]; }
    }
    forall i, j | 0 <= i < j < |all| ensures all[i] <= all[j] {
      if j >= |head| {
        assert all[j] == places[j - |head|];
        if i >= |head| { assert all[i] == places[i - |head|]; }
      }
    }
  }

  /** The patched pages that occur among the first `n` raw blocks. */
  ghost predicate EmittedBefore(raw: seq<Block>, pages: Pages, n: nat, emitted: set<int>) {
    n <= |raw| && forall page | page in pages :: page in emitted <==> OccursBefore(raw, page, n)
  }

  ghost predicate OccursBefore(raw: seq<Block>, page: int, n: nat) {
    exists j | 0 <= j < n && j < |raw| :: PrimaryPage(raw[j]) == Some(page)
  }

  lemma OccursNext(raw: seq<Block>, page: int, n: nat)
    requires n < |raw|
    ensures OccursBefore(raw, page, n + 1) <==> OccursBefore(raw, page, n) || PrimaryPage(raw[n]) == Some(page)
  {
  }

  lemma PageStands(raw: seq<Block>, patches: seq<LayoutPatch>, pages: Pages, page: int, n: nat)
    requires PagesPaged(pages) && pages.Keys == PatchedPages(patches) && page in pages
    requires n < |raw| && PrimaryPage(raw[n]) == Some(page) && !OccursBefore(raw, page, n)
    ensures forall b | b in pages[page] :: StandsFor(raw, patches, b, n)
  {
    var p :| p in patches && p.pageNo == page;
    forall b | b in pages[page] ensures StandsFor(raw, patches, b, n) { assert PrimaryPage(b) == Some(page); }
  }

  lemma AloneStands(raw: seq<Block>, patches: seq<LayoutPatch>, pages: Pages, n: nat)
    requires pages.Keys == PatchedPages(patches) && n < |raw| && Unpatched(pages)(raw[n])
    ensures StandsFor(raw, patches, raw[n], n)
  {
    assert forall p | p in patches :: p.pageNo in pages;
  }

  lemma {:induction false} EmitStands(
    raw: seq<Block>, patches: seq<LayoutPatch>, pages: Pages, n: nat, emitted: set<int>)
    returns (places: seq<nat>)
    requires PagesPaged(pages) && pages.Keys == PatchedPages(patches) && EmittedBefore(raw, pages, n, emitted)
    ensures StandAt(raw, patches, Emit(raw[n..], pages, emitted), places, n)
    decreases |raw| - n
  {
    if n == |raw| {
      places := [];
    } else {
      assert raw[n..][0] == raw[n] && raw[n..][1..] == raw[n + 1..];
      forall page | page in pages { OccursNext(raw, page, n); }
      var page := PrimaryPage(raw[n]);
      if Unpatched(pages)(raw[n]) {
        var rest := EmitStands(raw, patches, pages, n + 1, emitted);
        AloneStands(raw, patches, pages, n);
        places := StandJoin(raw, patches, [raw[n]], Emit(raw[n + 1..], pages, emitted), rest, n);
      } else if page.value in emitted {
        places := EmitStands(raw, patches, pages, n + 1, emitted);
      } else {
        var next := emitted + {page.value};
        var rest := EmitStands(raw, patches, pages, n + 1, next);
        PageStands(raw, patches, pages, page.value, n);
        places := StandJoin(raw, patches, pages[page.value], Emit(raw[n + 1..], pages, next), rest, n);
      }
    }
  }

  /** In the returned document unpatched blocks and whole patched pages stand in raw order, a page where
      its first raw block stood. */
  lemma AppliedStands(raw: seq<Block>, patches: seq<LayoutPatch>, captured: Option<seq<int>>, allow: bool)
    returns (places: seq<nat>)
    requires ApplySucceeds(raw, patches, captured, allow) && forall p | p in patches :: ValidPatch(p)
    ensures StandAt(raw, patches, Applied(raw, patches), places, 0)
  {
    ValidApplicable(raw, patches, captured, allow);
    PagesOfPaged(raw, patches);
    assert raw[0..] == raw;
    places := EmitStands(raw, patches, PagesOf(raw, patches), 0, {});
    var emitted := Emit(raw, PagesOf(raw, patches), {});
    forall i | 0 <= i < |emitted| ensures StandsFor(raw, patches, Applied(raw, patches)[i], places[i]) {
      assert Applied(raw, patches)[i] == emitted[i].(ordinal := i);
      assert StandsFor(raw, patches, emitted[i], places[i]);
      assert PrimaryPage(Applied(raw, patches)[i]) == PrimaryPage(emitted[i]);
    }
  }

  // ----- from the response to the block

  /** What the response says under this field about the block. */
  predicate SaysOf(response: Response, field: string, id: string, value: Json) {
    field in response && response[field].JObject? && id in response[field].fields && response[field].fields[id] == value
  }

  /** The key carries the text the response gives, unless it is null or may not be kept. */
  predicate Written(metadata: map<string, string>, key: string, value: Json, kept: bool) {
    if value.JString? && kept then key in metadata && metadata[key] == value.text else key !in metadata
  }

  /** Neither the block nor the one the response relates it to shares a box. */
  ghost predicate Clear(raw: seq<Block>, page: int, id: string, value: Json) {
    !Shares(raw, page, id) && (value.JString? ==> !Shares(raw, page, value.text))
  }

  /** The block's key carries the relation its response states, cleared where boxes are shared. */
  ghost predicate CarriesRelation(
    raw: seq<Block>, page: int, response: Response, field: string, key: string, b: Block)
  {
    exists value :: SaysOf(response, field, b.blockId, value) &&
      Written(b.metadata, key, value, Clear(raw, page, b.blockId, value))
  }

  ghost predicate CarriesRole(raw: seq<Block>, page: int, response: Response, b: Block) {
    exists value :: SaysOf(response, "role_by_block", b.blockId, value) &&
      Written(b.metadata, "layout_role", value, !Shares(raw, page, b.blockId))
  }

  /** The block carries the parent, group and role its response states. */
  ghost predicate CarriesSaid(raw: seq<Block>, page: int, response: Response, b: Block) {
    && CarriesRelation(raw, page, response, "parent_by_block", "layout_parent_block_id", b)
    && CarriesRelation(raw, page, response, "group_by_block", "layout_group_block_id", b)
    && CarriesRole(raw, page, response, b)
  }

  lemma RelationWritten(
    raw: seq<Block>, page: int, response: Response, field: string, key: string, said: Relation, kept: Relation,
    b: Block)
    requires DistinctIds(raw) && field in response && SaysRelation(response[field], said.Keys, said)
    requires RelationCleared(said, kept, Filter(raw, OnPage(page)), page)
    requires b.blockId in kept && Holds(b.metadata, key, kept[b.blockId])
    ensures CarriesRelation(raw, page, response, field, key, b)
  {
    var id := b.blockId;
    var value := response[field].fields[id];
    assert SaysText(value, said[id]);
    SharesIsAmbiguous(raw, page, id);
    if said[id].Some? { SharesIsAmbiguous(raw, page, said[id].value); }
    assert SaysOf(response, field, id, value);
  }

  lemma RoleWritten(
    raw: seq<Block>, page: int, response: Response, said: Relation, kept: Relation, b: Block)
    requires DistinctIds(raw) && "role_by_block" in response
    requires SaysRelation(response["role_by_block"], said.Keys, said)
    requires OwnValueCleared(said, kept, Filter(raw, OnPage(page)), page)
    requires b.blockId in kept && Holds(b.metadata, "layout_role", kept[b.blockId])
    ensures CarriesRole(raw, page, response, b)
  {
    var value := response["role_by_block"].fields[b.blockId];
    assert SaysText(value, said[b.blockId]);
    SharesIsAmbiguous(raw, page, b.blockId);
    assert SaysOf(response, "role_by_block", b.blockId, value);
  }

  /** The three relations a patch and its response agree on. */
  ghost predicate SaysRelations(response: Response, said: LayoutPatch) {
    && "parent_by_block" in response && SaysRelation(response["parent_by_block"], said.parent.Keys, said.parent)
    && "group_by_block" in response && SaysRelation(response["group_by_block"], said.group.Keys, said.group)
    && "role_by_block" in response && SaysRelation(response["role_by_block"], said.role.Keys, said.role)
  }

  lemma RelationsSaid(response: Response, ids: set<string>, labels: map<string, string>, said: LayoutPatch)
    requires Says(response, ids, labels, said)
    ensures SaysRelations(response, said)
  {
  }

  lemma SaidCarried(raw: seq<Block>, page: int, response: Response, said: LayoutPatch, p: LayoutPatch, b: Block)
    requires DistinctIds(raw) && SaysRelations(response, said) && IsRefined(raw, p, b)
    requires RelationCleared(said.parent, p.parent, Filter(raw, OnPage(page)), page)
    requires RelationCleared(said.group, p.group, Filter(raw, OnPage(page)), page)
    requires OwnValueCleared(said.role, p.role, Filter(raw, OnPage(page)), page)
    ensures CarriesSaid(raw, page, response, b)
  {
    RelationWritten(raw, page, response, "parent_by_block", "layout_parent_block_id", said.parent, p.parent, b);
    RelationWritten(raw, page, response, "group_by_block", "layout_group_block_id", said.group, p.group, b);
    RoleWritten(raw, page, response, said.role, p.role, b);
  }

  lemma RefinedCarries(
    raw: seq<Block>, page: int, response: Response, fingerprint: string, allow: bool, p: LayoutPatch, b: Block)
    requires DistinctIds(raw) && RefinedOn(raw, page, response, fingerprint, allow, p) && IsRefined(raw, p, b)
    ensures CarriesSaid(raw, page, response, b)
  {
    var said := ParsedOn(raw, page, response, fingerprint, allow).value;
    var labels := LabelsOn(raw, page);
    ParsedIsDescribed(response, page, IdsOnPage(raw, page), labels, fingerprint, allow, said);
    RelationsSaid(response, Elements(IdsOnPage(raw, page)), labels, said);
    SaidCarried(raw, page, response, said, p, b);
  }

  // ----- from the response to the section path

  /** The response gives the block this role, if any. */
  predicate SaysRole(response: Response, id: string, role: Option<string>) {
    && "role_by_block" in response && response["role_by_block"].JObject? && id in response["role_by_block"].fields
    && SaysText(response["role_by_block"].fields[id], role)
  }

  /** The entry is a heading by its label or its role and shares no box. */
  ghost predicate Ancestor(raw: seq<Block>, page: int, response: Response, id: string) {
    && !Shares(raw, page, id)
    && exists b, role :: BlockOf(raw, page, id, b) && SaysRole(response, id, role) && Heads(b.blockLabel, role)
  }

  /** The listed entries in order, without those that are no headings or share a box. */
  ghost predicate Ancestors(raw: seq<Block>, page: int, response: Response, items: seq<Json>, path: seq<string>) {
    if items == [] then path == []
    else
      var h := items[0];
      h.JString? &&
      if Ancestor(raw, page, response, h.text)
      then path != [] && path[0] == h.text && Ancestors(raw, page, response, items[1..], path[1..])
      else Ancestors(raw, page, response, items[1..], path)
  }

  /** The labels are those of the page's blocks, the roles those of the response. */
  ghost predicate Knows(
    raw: seq<Block>, page: int, response: Response, labels: map<string, string>, role: Relation)
  {
    && (forall id | id in labels :: exists b :: BlockOf(raw, page, id, b) && b.blockLabel == labels[id])
    && forall id | id in role :: SaysRole(response, id, role[id])
  }

  lemma AncestorIs(
    raw: seq<Block>, page: int, response: Response, labels: map<string, string>, role: Relation, id: string)
    requires DistinctIds(raw) && Knows(raw, page, response, labels, role) && id in labels && id in role
    ensures Ancestor(raw, page, response, id) <==> Heads(labels[id], role[id]) && !Shares(raw, page, id)
  {
    var b :| BlockOf(raw, page, id, b) && b.blockLabel == labels[id];
    assert SaysRole(response, id, role[id]);
    forall c, other | BlockOf(raw, page, id, c) && SaysRole(response, id, other)
      ensures c == b && other == role[id]
    {
      BlockOfId(raw, b, c);
    }
  }

  ghost function Unshared(raw: seq<Block>, page: int): string -> bool {
    id => !Shares(raw, page, id)
  }

  lemma {:induction false} KeptAncestors(
    raw: seq<Block>, page: int, response: Response, labels: map<string, string>, role: Relation, items: seq<Json>,
    kept: seq<string>)
    requires DistinctIds(raw) && Knows(raw, page, response, labels, role) && Kept(items, labels, role, kept)
    ensures Ancestors(raw, page, response, items, Filter(kept, Unshared(raw, page)))
  {
    if items != [] {
      var h := items[0].text;
      AncestorIs(raw, page, response, labels, role, h);
      if Heads(labels[h], role[h]) {
        KeptAncestors(raw, page, response, labels, role, items[1..], kept[1..]);
        var rest := Filter(kept[1..], Unshared(raw, page));
        if !Shares(raw, page, h) { assert Filter(kept, Unshared(raw, page))[1..] == rest; }
      } else {
        KeptAncestors(raw, page, response, labels, role, items[1..], kept);
      }
    }
  }

  lemma LabelsKnown(raw: seq<Block>, page: int, response: Response, ids: set<string>, said: LayoutPatch)
    requires DistinctIds(raw) && Says(response, ids, LabelsOn(raw, page), said)
    ensures Knows(raw, page, response, LabelsOn(raw, page), said.role)
  {
    PageIdsLocal(raw, page);
    forall id | id in LabelsOn(raw, page)
      ensures exists b :: BlockOf(raw, page, id, b) && b.blockLabel == LabelsOn(raw, page)[id]
    {
      var kept := Filter(raw, OnPage(page));
      assert id in IdsOnPage(raw, page);
      var i :| 0 <= i < |kept| && Ids(kept)[i] == id;
      BlockOnPage(raw, page, id, kept[i]);
      BlockOfId(raw, kept[i], BlockById(raw, id));
    }
    forall id | id in said.role ensures SaysRole(response, id, said.role[id]) {}
  }

  /** The block's path names the entries its response lists, as far as they are ancestors. */
  ghost predicate PathSaid(raw: seq<Block>, page: int, response: Response, b: Block) {
    exists items, path, original: Block ::
      && SaysOf(response, "section_heading_ids_by_block", b.blockId, JArray(items))
      && Ancestors(raw, page, response, items, path)
      && original in raw && original.blockId == b.blockId
      && PathNames(raw, path, original.sectionPath, b.sectionPath)
  }

  lemma RefinedPath(
    raw: seq<Block>, page: int, response: Response, fingerprint: string, allow: bool, p: LayoutPatch, b: Block)
    requires DistinctIds(raw) && RefinedOn(raw, page, response, fingerprint, allow, p) && IsRefined(raw, p, b)
    ensures PathSaid(raw, page, response, b)
  {
    var said := ParsedOn(raw, page, response, fingerprint, allow).value;
    var labels, ids := LabelsOn(raw, page), Elements(IdsOnPage(raw, page));
    ParsedIsDescribed(response, page, IdsOnPage(raw, page), labels, fingerprint, allow, said);
    LabelsKnown(raw, page, response, ids, said);
    PathFrom(raw, page, response, labels, ids, said, p, b);
  }

  lemma PathFrom(
    raw: seq<Block>, page: int, response: Response, labels: map<string, string>, ids: set<string>, said: LayoutPatch,
    p: LayoutPatch, b: Block)
    requires DistinctIds(raw) && Knows(raw, page, response, labels, said.role) && IsRefined(raw, p, b)
    requires "section_heading_ids_by_block" in response
    requires SaysHeadings(response["section_heading_ids_by_block"], ids, labels, said.role, said.headings)
    requires HeadingsCleared(said.headings, p.headings, Filter(raw, OnPage(page)), page)
    ensures PathSaid(raw, page, response, b)
  {
    var original: Block :| original.blockId == b.blockId && RefinedFrom(raw, p, original, b);
    var id := b.blockId;
    var value := response["section_heading_ids_by_block"].fields[id];
    KeptAncestors(raw, page, response, labels, said.role, value.items, said.headings[id]);
    forall x ensures Unshared(raw, page)(x) == Unambiguous(Filter(raw, OnPage(page)), page)(x) {
      SharesIsAmbiguous(raw, page, x);
    }
    FilterAgrees(said.headings[id], Unshared(raw, page), Unambiguous(Filter(raw, OnPage(page)), page));
    assert SaysOf(response, "section_heading_ids_by_block", id, JArray(value.items));
    assert Ancestors(raw, page, response, value.items, p.headings[id]);
  }

  /** Every block on a refined page carries the parent, group, role and section path its response states. */
  lemma DocumentCarries(
    raw: seq<Block>, pages: seq<int>, responses: seq<Response>, fingerprint: string, allow: bool,
    patches: seq<LayoutPatch>, i: nat, k: nat)
    requires AllRefined(raw, pages, responses, fingerprint, allow, patches) && i < |pages|
    requires ApplySucceeds(raw, patches, Some(pages), allow)
    requires k < |Applied(raw, patches)| && PrimaryPage(Applied(raw, patches)[k]) == Some(pages[i])
    ensures CarriesSaid(raw, pages[i], responses[i], Applied(raw, patches)[k])
    ensures PathSaid(raw, pages[i], responses[i], Applied(raw, patches)[k])
  {
    RefinedPatchesHold(raw, pages, responses, fingerprint, allow, patches);
    RefinedAtPage(raw, pages, responses, fingerprint, allow, patches, i);
    AppliedMetadata(raw, patches, Some(pages), allow, k);
    assert patches[i] in patches;
    RefinedCarries(raw, pages[i], responses[i], fingerprint, allow, patches[i], Applied(raw, patches)[k]);
    RefinedPath(raw, pages[i], responses[i], fingerprint, allow, patches[i], Applied(raw, patches)[k]);
  }
}
