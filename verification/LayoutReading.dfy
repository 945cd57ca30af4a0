/** From the response to the document: in which order the blocks of a refined page are read, stated about
    the response's own list and the boxes on the page. */
module LayoutReading {
  import opened Common
  import opened Layout
  import opened LayoutParse
  import opened Placement
  import opened LayoutStabilize
  import opened LayoutApply
  import opened LayoutContent
  import opened LayoutReapply
  import opened LayoutPipeline
  import opened LayoutResponse

  // ----- shared boxes

  predicate HasBox(l: Provenance, page: int) {
    l.pageNo == Some(page) && l.bbox.Some?
  }

  /** Location `k` is the block's first on the page that carries a box. */
  predicate DrawnAt(b: Block, page: int, k: nat) {
    && k < |b.provenance| && HasBox(b.provenance[k], page)
    && forall j | 0 <= j < k :: !HasBox(b.provenance[j], page)
  }

  /** Both blocks are first drawn in the same box with the same origin. */
  ghost predicate OneBox(a: Block, b: Block, page: int) {
    exists j: nat, k: nat :: DrawnAt(a, page, j) && DrawnAt(b, page, k) && SameBounds(a.provenance[j], b.provenance[k])
  }

  predicate SameBounds(a: Provenance, b: Provenance) {
    a.bbox == b.bbox && a.coordOrigin == b.coordOrigin
  }

  ghost predicate BlockOf(raw: seq<Block>, page: int, id: string, b: Block) {
    b in raw && b.blockId == id && PrimaryPage(b) == Some(page)
  }

  /** Both IDs name blocks of the page that are drawn in one box. */
  ghost predicate DrawnTogether(raw: seq<Block>, page: int, x: string, y: string) {
    exists a, b :: BlockOf(raw, page, x, a) && BlockOf(raw, page, y, b) && OneBox(a, b, page)
  }

  /** The block shares its box with another block of the page. */
  ghost predicate Shares(raw: seq<Block>, page: int, x: string) {
    exists y :: y != x && DrawnTogether(raw, page, x, y)
  }

  /** The first block precedes the second by ordinal, then by place in the raw document. */
  ghost predicate Precedes(raw: seq<Block>, x: string, y: string) {
    exists i: nat, j: nat | i < |raw| && j < |raw| :: raw[i].blockId == x && raw[j].blockId == y &&
      (raw[i].ordinal < raw[j].ordinal || (raw[i].ordinal == raw[j].ordinal && i < j))
  }

  /** A block that shares no box stands where the response lists it; the blocks of a shared box stand
      where the response lists blocks of that box, in raw order. */
  ghost predicate ReadsAs(raw: seq<Block>, page: int, listed: seq<Json>, order: seq<string>) {
    && |order| == |listed|
    && (forall p | 0 <= p < |order| :: listed[p].JString? &&
          if Shares(raw, page, listed[p].text) then DrawnTogether(raw, page, listed[p].text, order[p])
          else order[p] == listed[p].text)
    && forall p, q | 0 <= p < q < |order| && DrawnTogether(raw, page, order[p], order[q]) ::
          Precedes(raw, order[p], order[q])
  }

  // ----- the step's own notions

  lemma {:induction false} FirstBoxAt(locations: seq<Provenance>, page: int, k: nat)
    requires k < |locations| && HasBox(locations[k], page) && forall j | 0 <= j < k :: !HasBox(locations[j], page)
    ensures FirstBox(locations, page) == Some((locations[k].bbox.value, locations[k].coordOrigin))
  {
    if k > 0 {
      assert !HasBox(locations[0], page);
      assert forall j | 0 <= j < k - 1 :: locations[1..][j] == locations[j + 1];
      FirstBoxAt(locations[1..], page, k - 1);
    }
  }

  lemma {:induction false} BoxFound(locations: seq<Provenance>, page: int) returns (k: nat)
    requires FirstBox(locations, page).Some?
    ensures k < |locations| && HasBox(locations[k], page) && forall j | 0 <= j < k :: !HasBox(locations[j], page)
  {
    if HasBox(locations[0], page) {
      k := 0;
    } else {
      k := BoxFound(locations[1..], page);
      k := k + 1;
      forall j | 0 <= j < k ensures !HasBox(locations[j], page) {
        if j > 0 { assert locations[1..][j - 1] == locations[j]; }
      }
    }
  }

  lemma OneBoxMeaning(a: Block, b: Block, page: int)
    ensures OneBox(a, b, page) <==> BoxOf(a, page).Some? && BoxOf(a, page) == BoxOf(b, page)
  {
    if j: nat, k: nat :| DrawnAt(a, page, j) && DrawnAt(b, page, k) && SameBounds(a.provenance[j], b.provenance[k]) {
      FirstBoxAt(a.provenance, page, j);
      FirstBoxAt(b.provenance, page, k);
    }
    if BoxOf(a, page).Some? && BoxOf(a, page) == BoxOf(b, page) {
      var j := BoxFound(a.provenance, page);
      var k := BoxFound(b.provenance, page);
      FirstBoxAt(a.provenance, page, j);
      FirstBoxAt(b.provenance, page, k);
      assert DrawnAt(a, page, j) && DrawnAt(b, page, k) && SameBounds(a.provenance[j], b.provenance[k]);
    }
  }

  lemma BlockOnPage(raw: seq<Block>, page: int, id: string, b: Block)
    ensures BlockOf(raw, page, id, b) <==> b in Filter(raw, OnPage(page)) && b.blockId == id
  {
    FilterKeeps(raw, OnPage(page), b);
  }

  /** `key` is the box of both. */
  ghost predicate Both(raw: seq<Block>, page: int, key: BoxKey, x: string, y: string) {
    x in SameBox(Filter(raw, OnPage(page)), page, key) && y in SameBox(Filter(raw, OnPage(page)), page, key)
  }

  lemma InGroup(raw: seq<Block>, page: int, key: BoxKey, x: string) returns (b: Block)
    requires DistinctIds(raw) && x in SameBox(Filter(raw, OnPage(page)), page, key)
    ensures BlockOf(raw, page, x, b) && BoxOf(b, page) == Some(key)
  {
    var blocks := Filter(raw, OnPage(page));
    FilterIds(raw, OnPage(page));
    GroupFacts(blocks, page, key);
    b :| b in blocks && b.blockId == x && BoxOf(b, page) == Some(key);
    BlockOnPage(raw, page, x, b);
  }

  lemma GroupHolds(raw: seq<Block>, page: int, key: BoxKey, x: string, b: Block)
    requires DistinctIds(raw) && BlockOf(raw, page, x, b) && BoxOf(b, page) == Some(key)
    ensures x in SameBox(Filter(raw, OnPage(page)), page, key)
  {
    FilterIds(raw, OnPage(page));
    GroupFacts(Filter(raw, OnPage(page)), page, key);
    BlockOnPage(raw, page, x, b);
  }

  lemma TogetherBoth(raw: seq<Block>, page: int, x: string, y: string) returns (key: BoxKey)
    requires DistinctIds(raw) && DrawnTogether(raw, page, x, y)
    ensures Both(raw, page, key, x, y)
  {
    var a, b :| BlockOf(raw, page, x, a) && BlockOf(raw, page, y, b) && OneBox(a, b, page);
    OneBoxMeaning(a, b, page);
    key := BoxOf(a, page).value;
    GroupHolds(raw, page, key, x, a);
    GroupHolds(raw, page, key, y, b);
  }

  lemma BothTogether(raw: seq<Block>, page: int, key: BoxKey, x: string, y: string)
    requires DistinctIds(raw) && Both(raw, page, key, x, y)
    ensures DrawnTogether(raw, page, x, y)
  {
    var a := InGroup(raw, page, key, x);
    var b := InGroup(raw, page, key, y);
    OneBoxMeaning(a, b, page);
  }

  lemma Another(group: seq<string>, x: string) returns (y: string)
    requires Distinct(group) && |group| > 1
    ensures y in group && y != x
  {
    y := if group[0] == x then group[1] else group[0];
  }

  lemma PairCounts(group: seq<string>, x: string, y: string)
    requires x in group && y in group && x != y
    ensures |group| > 1
  {
  }

  lemma SharesIsAmbiguous(raw: seq<Block>, page: int, x: string)
    requires DistinctIds(raw)
    ensures Shares(raw, page, x) <==> Ambiguous(Filter(raw, OnPage(page)), page, x)
  {
    var blocks := Filter(raw, OnPage(page));
    if y :| y != x && DrawnTogether(raw, page, x, y) {
      var key := TogetherBoth(raw, page, x, y);
      PairCounts(SameBox(blocks, page, key), x, y);
    }
    if key: BoxKey :| |SameBox(blocks, page, key)| > 1 && x in SameBox(blocks, page, key) {
      FilterIds(raw, OnPage(page));
      GroupFacts(blocks, page, key);
      var y := Another(SameBox(blocks, page, key), x);
      BothTogether(raw, page, key, x, y);
    }
  }

  // ----- raw order inside a group

  /** The place of the ID in the raw document. */
  ghost function PlaceIn(raw: seq<Block>): string -> int {
    id => if id in Ids(raw) then IndexOf(Ids(raw), id) else -1
  }

  lemma PlaceOf(raw: seq<Block>, i: nat)
    requires DistinctIds(raw) && i < |raw|
    ensures PlaceIn(raw)(raw[i].blockId) == i
  {
    assert Ids(raw)[i] == raw[i].blockId;
    var k := IndexOf(Ids(raw), raw[i].blockId);
    assert raw[k].blockId == raw[i].blockId;
  }

  /** The IDs stand in raw order, none before place `n`. */
  ghost predicate PlacedFrom(raw: seq<Block>, ids: seq<string>, n: int) {
    && (forall i | 0 <= i < |ids| :: n <= PlaceIn(raw)(ids[i]))
    && forall i, j | 0 <= i < j < |ids| :: PlaceIn(raw)(ids[i]) < PlaceIn(raw)(ids[j])
  }

  lemma ConsAscends(at: string -> int, id: string, rest: seq<string>, n: int)
    requires at(id) == n && (forall i | 0 <= i < |rest| :: n < at(rest[i]))
    requires forall i, j | 0 <= i < j < |rest| :: at(rest[i]) < at(rest[j])
    ensures var ids := [id] + rest;
      && (forall i | 0 <= i < |ids| :: n <= at(ids[i]))
      && forall i, j | 0 <= i < j < |ids| :: at(ids[i]) < at(ids[j])
  {
    var ids := [id] + rest;
    forall i, j | 0 <= i < j < |ids| ensures at(ids[i]) < at(ids[j]) {
      assert ids[j] == rest[j - 1];
      if i > 0 { assert ids[i] == rest[i - 1]; }
    }
  }

  lemma PlacedCons(raw: seq<Block>, id: string, rest: seq<string>, n: int)
    requires PlaceIn(raw)(id) == n && PlacedFrom(raw, rest, n + 1)
    ensures PlacedFrom(raw, [id] + rest, n)
  {
    ConsAscends(PlaceIn(raw), id, rest, n);
  }

  lemma PlacedLater(raw: seq<Block>, ids: seq<string>, n: int)
    requires PlacedFrom(raw, ids, n + 1)
    ensures PlacedFrom(raw, ids, n)
  {
  }

  lemma FilterHead(blocks: seq<Block>, keep: Block -> bool)
    requires blocks != []
    ensures var rest := Ids(Filter(blocks[1..], keep));
      Ids(Filter(blocks, keep)) == if keep(blocks[0]) then [blocks[0].blockId] + rest else rest
  {
  }

  lemma {:induction false} FilterPlaced(raw: seq<Block>, n: nat, keep: Block -> bool)
    requires DistinctIds(raw) && n <= |raw|
    ensures PlacedFrom(raw, Ids(Filter(raw[n..], keep)), n)
    decreases |raw| - n
  {
    if n < |raw| {
      FilterPlaced(raw, n + 1, keep);
      PlacedStep(raw, n, keep, Ids(Filter(raw[n + 1..], keep)));
    }
  }

  lemma PlacedStep(raw: seq<Block>, n: nat, keep: Block -> bool, rest: seq<string>)
    requires DistinctIds(raw) && n < |raw| && rest == Ids(Filter(raw[n + 1..], keep)) && PlacedFrom(raw, rest, n + 1)
    ensures PlacedFrom(raw, Ids(Filter(raw[n..], keep)), n)
  {
    assert raw[n..][0] == raw[n] && raw[n..][1..] == raw[n + 1..];
    FilterHead(raw[n..], keep);
    PlaceOf(raw, n);
    PlacedCons(raw, raw[n].blockId, rest, n);
    PlacedLater(raw, rest, n);
  }

  lemma {:induction false} RankIsOrdinal(blocks: seq<Block>, b: Block)
    requires DistinctIds(blocks) && b in blocks
    ensures RankOf(blocks, b.blockId) == b.ordinal
  {
    if blocks[0].blockId == b.blockId {
      BlockOfId(blocks, blocks[0], b);
    } else {
      assert forall i | 0 <= i < |blocks[1..]| :: blocks[1..][i] == blocks[i + 1];
      RankIsOrdinal(blocks[1..], b);
    }
  }

  function Also<T>(p: T -> bool, q: T -> bool): T -> bool {
    x => p(x) && q(x)
  }

  lemma {:induction false} FilterAlso<T>(s: seq<T>, p: T -> bool, q: T -> bool)
    ensures Filter(Filter(s, p), q) == Filter(s, Also(p, q))
  {
    if s != [] { FilterAlso(s[1..], p, q); }
  }

  lemma BoxPlaced(raw: seq<Block>, page: int, key: BoxKey)
    requires DistinctIds(raw)
    ensures PlacedFrom(raw, InBox(Filter(raw, OnPage(page)), page, key), 0)
  {
    FilterAlso(raw, OnPage(page), OnBox(page, key));
    assert raw[0..] == raw;
    FilterPlaced(raw, 0, Also(OnPage(page), OnBox(page, key)));
  }

  lemma PlacePrecedes(raw: seq<Block>, a: Block, b: Block)
    requires DistinctIds(raw) && a in raw && b in raw
    requires a.ordinal < b.ordinal || (a.ordinal == b.ordinal && PlaceIn(raw)(a.blockId) < PlaceIn(raw)(b.blockId))
    ensures Precedes(raw, a.blockId, b.blockId)
  {
    var i :| 0 <= i < |raw| && raw[i] == a;
    var j :| 0 <= j < |raw| && raw[j] == b;
    PlaceOf(raw, i);
    PlaceOf(raw, j);
  }

  /** A group lists its blocks by ordinal, equal ordinals in raw order. */
  lemma GroupInOrder(raw: seq<Block>, page: int, key: BoxKey, i: nat, j: nat)
    requires DistinctIds(raw) && i < j < |SameBox(Filter(raw, OnPage(page)), page, key)|
    ensures var group := SameBox(Filter(raw, OnPage(page)), page, key); Precedes(raw, group[i], group[j])
  {
    var blocks := Filter(raw, OnPage(page));
    var group := SameBox(blocks, page, key);
    FilterIds(raw, OnPage(page));
    BoxPlaced(raw, page, key);
    ByRankStrictWeak(blocks);
    SortedStable(InBox(blocks, page, key), ByRank(blocks), PlaceIn(raw));
    var a := InGroup(raw, page, key, group[i]);
    var b := InGroup(raw, page, key, group[j]);
    BlockOnPage(raw, page, group[i], a);
    BlockOnPage(raw, page, group[j], b);
    RankIsOrdinal(blocks, a);
    RankIsOrdinal(blocks, b);
    PlacePrecedes(raw, a, b);
  }

  // ----- the order of a refined page

  lemma GroupMembersInOrder(raw: seq<Block>, page: int, key: BoxKey, order: seq<string>, p: nat, q: nat)
    requires DistinctIds(raw) && p < q < |order|
    requires Filter(order, Within(SameBox(Filter(raw, OnPage(page)), page, key))) ==
             SameBox(Filter(raw, OnPage(page)), page, key)
    requires Both(raw, page, key, order[p], order[q])
    ensures Precedes(raw, order[p], order[q])
  {
    var within := Within(SameBox(Filter(raw, OnPage(page)), page, key));
    FilterAt(order, within, p);
    FilterAt(order, within, q);
    FilterAtOrder(order, within, p, q);
    GroupInOrder(raw, page, key, |Filter(order[..p], within)|, |Filter(order[..q], within)|);
  }

  lemma SharedTogether(raw: seq<Block>, page: int, order: seq<string>, result: seq<string>, p: nat)
    requires DistinctIds(raw) && StableOrder(order, result, Filter(raw, OnPage(page)), page) && p < |order|
    requires Shares(raw, page, order[p])
    ensures DrawnTogether(raw, page, order[p], result[p])
  {
    var blocks := Filter(raw, OnPage(page));
    SharesIsAmbiguous(raw, page, order[p]);
    var key: BoxKey :| |SameBox(blocks, page, key)| > 1 && order[p] in SameBox(blocks, page, key);
    assert GroupPlaced(order, result, SameBox(blocks, page, key));
    BothTogether(raw, page, key, order[p], result[p]);
  }

  lemma TogetherInOrder(raw: seq<Block>, page: int, order: seq<string>, result: seq<string>, p: nat, q: nat)
    requires DistinctIds(raw) && StableOrder(order, result, Filter(raw, OnPage(page)), page) && Distinct(result)
    requires p < q < |result| && DrawnTogether(raw, page, result[p], result[q])
    ensures Precedes(raw, result[p], result[q])
  {
    var key := TogetherBoth(raw, page, result[p], result[q]);
    PairCounts(SameBox(Filter(raw, OnPage(page)), page, key), result[p], result[q]);
    assert GroupPlaced(order, result, SameBox(Filter(raw, OnPage(page)), page, key));
    GroupMembersInOrder(raw, page, key, result, p, q);
  }

  lemma StableReads(raw: seq<Block>, page: int, listed: seq<Json>, order: seq<string>, result: seq<string>)
    requires DistinctIds(raw) && StableOrder(order, result, Filter(raw, OnPage(page)), page) && Distinct(result)
    requires SaysOrder(JArray(listed), order)
    ensures ReadsAs(raw, page, listed, result)
  {
    forall p | 0 <= p < |result|
      ensures listed[p] == JString(order[p])
      ensures if Shares(raw, page, order[p]) then DrawnTogether(raw, page, order[p], result[p])
              else result[p] == order[p]
    {
      SharesIsAmbiguous(raw, page, order[p]);
      if Shares(raw, page, order[p]) { SharedTogether(raw, page, order, result, p); }
    }
    forall p, q | 0 <= p < q < |result| && DrawnTogether(raw, page, result[p], result[q])
      ensures Precedes(raw, result[p], result[q])
    {
      TogetherInOrder(raw, page, order, result, p, q);
    }
  }

  /** `listed` is the response's order. */
  predicate Lists(response: Response, listed: seq<Json>) {
    "ordered_block_ids" in response && response["ordered_block_ids"] == JArray(listed)
  }

  /** A refined page's patch lists the page as the response does. */
  lemma RefinedReads(
    raw: seq<Block>, page: int, response: Response, fingerprint: string, allow: bool, patch: LayoutPatch)
    returns (listed: seq<Json>)
    requires DistinctIds(raw) && RefinedOn(raw, page, response, fingerprint, allow, patch)
    ensures Lists(response, listed) && ReadsAs(raw, page, listed, patch.order)
  {
    var parsed := ParsedOn(raw, page, response, fingerprint, allow).value;
    ParsedIsDescribed(response, page, IdsOnPage(raw, page), LabelsOn(raw, page), fingerprint, allow, parsed);
    RefinedFacts(raw, page, response, fingerprint, allow, patch);
    PatchDistinct(patch);
    listed := response["ordered_block_ids"].items;
    StableReads(raw, page, listed, parsed.order, patch.order);
  }

  /** The patch relates the block to nothing, relates nothing to it and keeps no guess about it. */
  ghost predicate Untouched(p: LayoutPatch, x: string) {
    && (x in p.parent ==> p.parent[x] == None) && (x in p.group ==> p.group[x] == None)
    && (x in p.role ==> p.role[x] == None) && (x in p.excluded ==> p.excluded[x] == None)
    && (forall id | id in p.parent :: p.parent[id] != Some(x)) && (forall id | id in p.group :: p.group[id] != Some(x))
    && forall id | id in p.headings :: x !in p.headings[id]
  }

  /** A block that shares its box is neither excluded nor related nor given a role. */
  lemma SharedUntouched(
    raw: seq<Block>, page: int, response: Response, fingerprint: string, allow: bool, patch: LayoutPatch, x: string)
    requires DistinctIds(raw) && RefinedOn(raw, page, response, fingerprint, allow, patch) && Shares(raw, page, x)
    ensures Untouched(patch, x)
  {
    SharesIsAmbiguous(raw, page, x);
    var said := ParsedOn(raw, page, response, fingerprint, allow).value;
    ClearedOf(said, patch, Filter(raw, OnPage(page)), page, x);
  }

  lemma ClearedOf(said: LayoutPatch, p: LayoutPatch, blocks: seq<Block>, page: int, x: string)
    requires IsStabilized(said, p, blocks, page) && Ambiguous(blocks, page, x)
    ensures Untouched(p, x)
  {
    forall id | id in p.headings ensures x !in p.headings[id] {
      FilterKeeps(said.headings[id], Unambiguous(blocks, page), x);
    }
  }

  /** Some patch proposes to drop the block. */
  ghost predicate Dropped(patches: seq<LayoutPatch>, id: string) {
    exists p | p in patches :: id in p.excluded && p.excluded[id].Some?
  }

  ghost function Undropped(patches: seq<LayoutPatch>): string -> bool {
    id => !Dropped(patches, id)
  }

  lemma DroppedIsExcluded(patches: seq<LayoutPatch>, id: string)
    ensures Dropped(patches, id) <==> id in ExcludedIds(patches)
  {
    ExcludedMember(patches, id);
  }

  /** The document lists these of the page's blocks, in this order. */
  ghost predicate PageReads(out: seq<Block>, page: int, ids: seq<string>) {
    Ids(Filter(out, OnPage(page))) == ids
  }

  lemma PatchReads(raw: seq<Block>, patches: seq<LayoutPatch>, patch: LayoutPatch)
    requires Applicable(raw, patches) && patch in patches
    ensures PageReads(Applied(raw, patches), patch.pageNo, Filter(patch.order, Undropped(patches)))
  {
    AppliedPage(raw, patches, patch);
    forall id ensures Undropped(patches)(id) == Retained(ExcludedIds(patches))(id) { DroppedIsExcluded(patches, id); }
    FilterAgrees(patch.order, Undropped(patches), Retained(ExcludedIds(patches)));
  }

  lemma NothingDropped(patches: seq<LayoutPatch>, order: seq<string>)
    requires ExcludedIds(patches) == {}
    ensures Filter(order, Undropped(patches)) == order
  {
    forall id ensures Undropped(patches)(id) { DroppedIsExcluded(patches, id); }
    FilterAll(order, Undropped(patches));
  }

  lemma AcceptedApplicable(
    raw: seq<Block>, pages: seq<int>, responses: seq<Response>, fingerprint: string, allow: bool,
    patches: seq<LayoutPatch>)
    requires AllRefined(raw, pages, responses, fingerprint, allow, patches)
    requires ApplySucceeds(raw, patches, Some(pages), allow)
    ensures Applicable(raw, patches) && (!allow ==> ExcludedIds(patches) == {})
  {
    RefinedPatchesHold(raw, pages, responses, fingerprint, allow, patches);
    ValidApplicable(raw, patches, Some(pages), allow);
  }

  lemma RefinedAtPage(
    raw: seq<Block>, pages: seq<int>, responses: seq<Response>, fingerprint: string, allow: bool,
    patches: seq<LayoutPatch>, i: nat)
    requires DistinctIds(raw) && AllRefined(raw, pages, responses, fingerprint, allow, patches) && i < |pages|
    ensures RefinedOn(raw, pages[i], responses[i], fingerprint, allow, patches[i]) && patches[i].pageNo == pages[i]
  {
    assert RefinedOn(raw, pages[i], responses[i], fingerprint, allow, patches[i]);
    RefinedFacts(raw, pages[i], responses[i], fingerprint, allow, patches[i]);
  }

  /** In the refined document every refined page reads as its response lists it, without the blocks any
      patch drops; with exclusions off, all of it. */
  lemma DocumentReads(
    raw: seq<Block>, pages: seq<int>, responses: seq<Response>, fingerprint: string, allow: bool,
    patches: seq<LayoutPatch>, i: nat)
    returns (listed: seq<Json>, order: seq<string>)
    requires AllRefined(raw, pages, responses, fingerprint, allow, patches) && i < |pages|
    requires ApplySucceeds(raw, patches, Some(pages), allow)
    ensures Lists(responses[i], listed) && ReadsAs(raw, pages[i], listed, order)
    ensures PageReads(Applied(raw, patches), pages[i], Filter(order, Undropped(patches)))
    ensures !allow ==> PageReads(Applied(raw, patches), pages[i], order)
  {
    AcceptedApplicable(raw, pages, responses, fingerprint, allow, patches);
    RefinedAtPage(raw, pages, responses, fingerprint, allow, patches, i);
    listed := RefinedReads(raw, pages[i], responses[i], fingerprint, allow, patches[i]);
    order := patches[i].order;
    PatchReads(raw, patches, patches[i]);
    if !allow { NothingDropped(patches, order); }
  }
}
