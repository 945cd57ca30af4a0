/** Undoing model guesses about blocks that share one bounding box
    (`_stabilize_ambiguous_same_box_blocks`, backends.py). */
module LayoutStabilize {
  import opened Common
  import opened Layout
  import opened LayoutParse
  import opened Placement

  type BoxKey = (Box, Option<string>)

  /** The first location of a block on the page that carries a box. */
  function FirstBox(locations: seq<Provenance>, pageNo: int): Option<BoxKey> {
    if locations == [] then None
    else if locations[0].pageNo == Some(pageNo) && locations[0].bbox.Some? then
      Some((locations[0].bbox.value, locations[0].coordOrigin))
    else FirstBox(locations[1..], pageNo)
  }

  function BoxOf(b: Block, pageNo: int): Option<BoxKey> {
    FirstBox(b.provenance, pageNo)
  }

  function Ids(blocks: seq<Block>): (r: seq<string>)
    ensures |r| == |blocks|
  {
    seq(|blocks|, i requires 0 <= i < |blocks| => blocks[i].blockId)
  }

  ghost predicate DistinctIds(blocks: seq<Block>) {
    forall i, j | 0 <= i < j < |blocks| :: blocks[i].blockId != blocks[j].blockId
  }

  /** `raw_rank[id]`. */
  function RankOf(blocks: seq<Block>, id: string): int {
    if blocks == [] then 0
    else if blocks[0].blockId == id then blocks[0].ordinal
    else RankOf(blocks[1..], id)
  }

  function ByRank(blocks: seq<Block>): (string, string) -> bool {
    (a, b) => RankOf(blocks, a) < RankOf(blocks, b)
  }

  function OnBox(pageNo: int, key: BoxKey): Block -> bool {
    b => BoxOf(b, pageNo) == Some(key)
  }

  /** `by_box[key]`: the IDs drawn in one box, in block order. */
  function InBox(blocks: seq<Block>, pageNo: int, key: BoxKey): seq<string> {
    Ids(Filter(blocks, OnBox(pageNo, key)))
  }

  /** The same IDs in canonical order. */
  function SameBox(blocks: seq<Block>, pageNo: int, key: BoxKey): seq<string> {
    Sorted(InBox(blocks, pageNo, key), ByRank(blocks))
  }

  /** The block shares its box with another one, so the image cannot tell them apart. */
  ghost predicate Ambiguous(blocks: seq<Block>, pageNo: int, id: string) {
    exists key: BoxKey :: |SameBox(blocks, pageNo, key)| > 1 && id in SameBox(blocks, pageNo, key)
  }

  // ----- what stabilization must produce

  ghost predicate StableOrder(order: seq<string>, result: seq<string>, blocks: seq<Block>, pageNo: int) {
    && |result| == |order|
    && (forall p | 0 <= p < |order| :: Ambiguous(blocks, pageNo, order[p]) || result[p] == order[p])
    && (forall key: BoxKey | |SameBox(blocks, pageNo, key)| > 1 ::
          GroupPlaced(order, result, SameBox(blocks, pageNo, key)))
  }

  ghost predicate RelationCleared(before: Relation, after: Relation, blocks: seq<Block>, pageNo: int) {
    && after.Keys == before.Keys
    && forall id {:trigger after[id]} | id in before :: after[id] ==
         if Ambiguous(blocks, pageNo, id) || (before[id].Some? && Ambiguous(blocks, pageNo, before[id].value))
         then None else before[id]
  }

  ghost predicate OwnValueCleared(before: Relation, after: Relation, blocks: seq<Block>, pageNo: int) {
    && after.Keys == before.Keys
    && forall id {:trigger after[id]} | id in before ::
      after[id] == if Ambiguous(blocks, pageNo, id) then None else before[id]
  }

  ghost predicate HeadingsCleared(
    before: map<string, seq<string>>, after: map<string, seq<string>>, blocks: seq<Block>, pageNo: int)
  {
    && after.Keys == before.Keys
    && forall id {:trigger after[id]} | id in before :: after[id] == Filter(before[id], Unambiguous(blocks, pageNo))
  }

  ghost function Unambiguous(blocks: seq<Block>, pageNo: int): string -> bool {
    id => !Ambiguous(blocks, pageNo, id)
  }

  ghost predicate IsStabilized(patch: LayoutPatch, result: LayoutPatch, blocks: seq<Block>, pageNo: int) {
    && result.pageNo == patch.pageNo && result.fingerprint == patch.fingerprint
    && StableOrder(patch.order, result.order, blocks, pageNo)
    && RelationCleared(patch.parent, result.parent, blocks, pageNo)
    && RelationCleared(patch.group, result.group, blocks, pageNo)
    && OwnValueCleared(patch.role, result.role, blocks, pageNo)
    && OwnValueCleared(patch.excluded, result.excluded, blocks, pageNo)
    && HeadingsCleared(patch.headings, result.headings, blocks, pageNo)
  }

  // ----- facts about groups

  lemma {:induction false} FilterIds(blocks: seq<Block>, keep: Block -> bool)
    requires DistinctIds(blocks)
    ensures DistinctIds(Filter(blocks, keep))
  {
    if blocks != [] {
      var rest := blocks[1..];
      assert forall i | 0 <= i < |rest| :: rest[i] == blocks[i + 1];
      FilterIds(rest, keep);
      var tail := Filter(rest, keep);
      forall i | 0 <= i < |tail| ensures tail[i].blockId != blocks[0].blockId { assert tail[i] in rest; }
    }
  }

  lemma ByRankStrictWeak(blocks: seq<Block>)
    ensures StrictWeak(ByRank(blocks))
  {
  }

  /** A group lists, in ordinal order and once each, the page's blocks drawn in that box. */
  lemma GroupFacts(blocks: seq<Block>, pageNo: int, key: BoxKey)
    requires DistinctIds(blocks)
    ensures var group := SameBox(blocks, pageNo, key);
      && Distinct(group) && Ascending(group, ByRank(blocks))
      && forall id :: id in group <==> exists b | b in blocks :: b.blockId == id && BoxOf(b, pageNo) == Some(key)
  {
    var on := OnBox(pageNo, key);
    var kept := Filter(blocks, on);
    FilterIds(blocks, on);
    var group := SameBox(blocks, pageNo, key);
    MultisetDistinct(Ids(kept), group);
    ByRankStrictWeak(blocks);
    SortedAscends(Ids(kept), ByRank(blocks));
    forall id
      ensures id in group <==> exists b | b in blocks :: b.blockId == id && BoxOf(b, pageNo) == Some(key)
    {
      assert id in group <==> id in Elements(Ids(kept));
      if id in group {
        var i :| 0 <= i < |kept| && Ids(kept)[i] == id;
        assert kept[i] in blocks;
      }
      if b :| b in blocks && b.blockId == id && BoxOf(b, pageNo) == Some(key) {
        FilterKeeps(blocks, on, b);
        var i :| 0 <= i < |kept| && kept[i] == b;
        assert Ids(kept)[i] == id;
      }
    }
  }

  lemma BlockOfId(blocks: seq<Block>, a: Block, b: Block)
    requires DistinctIds(blocks) && a in blocks && b in blocks && a.blockId == b.blockId
    ensures a == b
  {
  }

  /** No block is drawn in two boxes. */
  lemma GroupsDisjoint(blocks: seq<Block>, pageNo: int, k: BoxKey, l: BoxKey, id: string)
    requires DistinctIds(blocks)
    requires id in SameBox(blocks, pageNo, k) && id in SameBox(blocks, pageNo, l)
    ensures k == l
  {
    GroupFacts(blocks, pageNo, k);
    GroupFacts(blocks, pageNo, l);
    var a :| a in blocks && a.blockId == id && BoxOf(a, pageNo) == Some(k);
    var b :| b in blocks && b.blockId == id && BoxOf(b, pageNo) == Some(l);
    BlockOfId(blocks, a, b);
  }

  // ----- the step itself

  ghost predicate BoxesOf(blocks: seq<Block>, pageNo: int, byBox: map<BoxKey, seq<string>>) {
    forall key: BoxKey :: InBox(blocks, pageNo, key) == if key in byBox then byBox[key] else []
  }

  lemma InBoxSnoc(blocks: seq<Block>, b: Block, pageNo: int, key: BoxKey)
    ensures InBox(blocks + [b], pageNo, key) ==
            InBox(blocks, pageNo, key) + if BoxOf(b, pageNo) == Some(key) then [b.blockId] else []
  {
    FilterConcat(blocks, [b], OnBox(pageNo, key));
  }

  /** The insertion-ordered `by_box` dictionary. */
  method CollectBoxes(blocks: seq<Block>, pageNo: int)
    returns (byBox: map<BoxKey, seq<string>>, inserted: seq<BoxKey>)
    ensures BoxesOf(blocks, pageNo, byBox)
    ensures Distinct(inserted) && Elements(inserted) == byBox.Keys
  {
    byBox, inserted := map[], [];
    for i := 0 to |blocks|
      invariant Distinct(inserted) && Elements(inserted) == byBox.Keys
      invariant BoxesOf(blocks[..i], pageNo, byBox)
    {
      var b := blocks[i];
      assert blocks[..i + 1] == blocks[..i] + [b];
      forall key: BoxKey { InBoxSnoc(blocks[..i], b, pageNo, key); }
      var box := BoxOf(b, pageNo);
      if box.Some? {
        if box.value !in byBox {
          inserted := inserted + [box.value];
          byBox := byBox[box.value := []];
        }
        byBox := byBox[box.value := byBox[box.value] + [b.blockId]];
      }
    }
    assert blocks[..|blocks|] == blocks;
  }

  function Shared(blocks: seq<Block>, pageNo: int): BoxKey -> bool {
    key => |SameBox(blocks, pageNo, key)| > 1
  }

  function Groups(blocks: seq<Block>, pageNo: int, keys: seq<BoxKey>): (r: seq<seq<string>>)
    ensures |r| == |keys|
    ensures forall i | 0 <= i < |r| :: r[i] == SameBox(blocks, pageNo, keys[i])
  {
    if keys == [] then [] else [SameBox(blocks, pageNo, keys[0])] + Groups(blocks, pageNo, keys[1..])
  }

  /** `tuple(sorted(ids) for ids in by_box.values() if len(ids) > 1)`. */
  function GroupsIn(byBox: map<BoxKey, seq<string>>, inserted: seq<BoxKey>, blocks: seq<Block>): seq<seq<string>> {
    if inserted == [] then []
    else
      var ids := if inserted[0] in byBox then byBox[inserted[0]] else [];
      (if |ids| > 1 then [Sorted(ids, ByRank(blocks))] else []) + GroupsIn(byBox, inserted[1..], blocks)
  }

  lemma {:induction false} GroupsInShared(
    blocks: seq<Block>, pageNo: int, byBox: map<BoxKey, seq<string>>, inserted: seq<BoxKey>)
    requires BoxesOf(blocks, pageNo, byBox)
    ensures GroupsIn(byBox, inserted, blocks) == Groups(blocks, pageNo, Filter(inserted, Shared(blocks, pageNo)))
  {
    if inserted != [] {
      var key := inserted[0];
      var rest := Filter(inserted[1..], Shared(blocks, pageNo));
      GroupsInShared(blocks, pageNo, byBox, inserted[1..]);
      var ids := if key in byBox then byBox[key] else [];
      assert InBox(blocks, pageNo, key) == ids;
      if |ids| > 1 {
        assert ([key] + rest)[1..] == rest;
      }
    }
  }

  /** Every box in use was inserted, so filtering the inserted ones finds all shared boxes. */
  lemma SharedKeys(blocks: seq<Block>, pageNo: int, byBox: map<BoxKey, seq<string>>, inserted: seq<BoxKey>)
    requires BoxesOf(blocks, pageNo, byBox) && Distinct(inserted) && Elements(inserted) == byBox.Keys
    ensures var keys := Filter(inserted, Shared(blocks, pageNo));
      Distinct(keys) && forall key: BoxKey :: key in keys <==> |SameBox(blocks, pageNo, key)| > 1
  {
    var shared := Shared(blocks, pageNo);
    FilterDistinct(inserted, shared);
    forall key: BoxKey ensures key in Filter(inserted, shared) <==> |SameBox(blocks, pageNo, key)| > 1 {
      FilterKeeps(inserted, shared, key);
      assert |InBox(blocks, pageNo, key)| == |SameBox(blocks, pageNo, key)|;
      assert key in inserted <==> key in Elements(inserted);
    }
  }

  /** The groups of two or more blocks in one box, each sorted by canonical rank. */
  method CollectGroups(blocks: seq<Block>, pageNo: int) returns (groups: seq<seq<string>>, ghost keys: seq<BoxKey>)
    ensures groups == Groups(blocks, pageNo, keys) && Distinct(keys)
    ensures forall key: BoxKey :: key in keys <==> |SameBox(blocks, pageNo, key)| > 1
  {
    var byBox, inserted := CollectBoxes(blocks, pageNo);
    groups := GroupsIn(byBox, inserted, blocks);
    keys := Filter(inserted, Shared(blocks, pageNo));
    GroupsInShared(blocks, pageNo, byBox, inserted);
    SharedKeys(blocks, pageNo, byBox, inserted);
  }

  /** The loop that clears a dictionary at the ambiguous blocks. */
  method ClearOwn(relation: Relation, ambiguous: set<string>) returns (result: Relation)
    requires ambiguous <= relation.Keys
    ensures result.Keys == relation.Keys
    ensures forall id {:trigger result[id]} | id in relation ::
      result[id] == if id in ambiguous then None else relation[id]
  {
    result := relation;
    var pending := ambiguous;
    while pending != {}
      invariant pending <= ambiguous && result.Keys == relation.Keys
      invariant forall id | id in relation :: result[id] == if id in ambiguous - pending then None else relation[id]
    {
      var id :| id in pending;
      result := result[id := None];
      pending := pending - {id};
    }
  }

  /** The loop that clears every entry pointing at an ambiguous block. */
  method ClearTargets(relation: Relation, ambiguous: set<string>) returns (result: Relation)
    ensures result.Keys == relation.Keys
    ensures forall id {:trigger result[id]} | id in relation ::
      result[id] == if relation[id].Some? && relation[id].value in ambiguous then None else relation[id]
  {
    result := relation;
    var pending := relation.Keys;
    while pending != {}
      invariant pending <= relation.Keys == result.Keys
      invariant forall id {:trigger result[id]} | id in relation :: (
        result[id] ==
        if id !in pending && relation[id].Some? && relation[id].value in ambiguous then None else relation[id])
    {
      var id :| id in pending;
      if result[id].Some? && result[id].value in ambiguous { result := result[id := None]; }
      pending := pending - {id};
    }
  }

  lemma GroupMembers(blocks: seq<Block>, pageNo: int, key: BoxKey)
    requires DistinctIds(blocks)
    ensures Distinct(SameBox(blocks, pageNo, key))
    ensures forall id | id in SameBox(blocks, pageNo, key) :: id in Ids(blocks)
  {
    GroupFacts(blocks, pageNo, key);
    forall id | id in SameBox(blocks, pageNo, key) ensures id in Ids(blocks) {
      var b :| b in blocks && b.blockId == id && BoxOf(b, pageNo) == Some(key);
      var k :| 0 <= k < |blocks| && blocks[k] == b;
      assert Ids(blocks)[k] == id;
    }
  }

  lemma GroupsApart(blocks: seq<Block>, pageNo: int, groups: seq<seq<string>>, keys: seq<BoxKey>)
    requires DistinctIds(blocks) && Distinct(keys) && groups == Groups(blocks, pageNo, keys)
    ensures Apart(groups)
  {
    forall i, j | 0 <= i < j < |groups| ensures ApartFrom(groups[i], groups[j]) {
      forall id | id in groups[i] ensures id !in groups[j] {
        if id in groups[j] { GroupsDisjoint(blocks, pageNo, keys[i], keys[j], id); }
      }
    }
  }

  /** The groups hold exactly the ambiguous blocks. */
  lemma GroupsCover(blocks: seq<Block>, pageNo: int, groups: seq<seq<string>>, keys: seq<BoxKey>, id: string)
    requires groups == Groups(blocks, pageNo, keys)
    requires forall key: BoxKey :: key in keys <==> |SameBox(blocks, pageNo, key)| > 1
    ensures Ambiguous(blocks, pageNo, id) <==> exists i | 0 <= i < |groups| :: id in groups[i]
  {
  }

  lemma OrderStable(
    order: seq<string>, result: seq<string>, blocks: seq<Block>, pageNo: int, groups: seq<seq<string>>,
    keys: seq<BoxKey>)
    requires groups == Groups(blocks, pageNo, keys)
    requires forall key: BoxKey :: key in keys <==> |SameBox(blocks, pageNo, key)| > 1
    requires Placing(order, groups, |groups|, result)
    ensures StableOrder(order, result, blocks, pageNo)
  {
    forall p | 0 <= p < |order| ensures Ambiguous(blocks, pageNo, order[p]) || result[p] == order[p] {
      GroupsCover(blocks, pageNo, groups, keys, order[p]);
      assert !Ambiguous(blocks, pageNo, order[p]) ==> InNone(order[p], groups, |groups|);
    }
    forall key: BoxKey | |SameBox(blocks, pageNo, key)| > 1
      ensures GroupPlaced(order, result, SameBox(blocks, pageNo, key))
    {
      var i :| 0 <= i < |keys| && keys[i] == key;
      assert groups[i] == SameBox(blocks, pageNo, key);
    }
  }

  /** The reordering loop together with the set of blocks whose relations must go. */
  method StabilizeOrder(order: seq<string>, blocks: seq<Block>, pageNo: int)
    returns (result: seq<string>, ambiguous: set<string>)
    requires Distinct(order) && DistinctIds(blocks) && Elements(Ids(blocks)) == Elements(order)
    ensures StableOrder(order, result, blocks, pageNo)
    ensures ambiguous <= Elements(order)
    ensures forall id :: id in ambiguous <==> Ambiguous(blocks, pageNo, id)
  {
    ghost var keys;
    var groups;
    groups, keys := CollectGroups(blocks, pageNo);
    forall i | 0 <= i < |groups| ensures Distinct(groups[i]) && forall id | id in groups[i] :: id in order {
      GroupMembers(blocks, pageNo, keys[i]);
      assert forall id | id in groups[i] :: id in Elements(order);
    }
    GroupsApart(blocks, pageNo, groups, keys);
    result := PlaceGroups(order, groups);
    OrderStable(order, result, blocks, pageNo, groups, keys);
    ambiguous := set i, id | 0 <= i < |groups| && id in groups[i] :: id;
    forall id ensures id in ambiguous <==> Ambiguous(blocks, pageNo, id) {
      GroupsCover(blocks, pageNo, groups, keys, id);
    }
  }

  method Stabilize(patch: LayoutPatch, blocks: seq<Block>, pageNo: int) returns (r: Result<LayoutPatch>)
    requires ValidPatch(patch) && DistinctIds(blocks) && Elements(Ids(blocks)) == Elements(patch.order)
    ensures r.Ok? && IsStabilized(patch, r.value, blocks, pageNo)
  {
    PatchDistinct(patch);
    var order, ambiguous := StabilizeOrder(patch.order, blocks, pageNo);
    if ambiguous == {} {
      StableWithoutGroups(patch, order, blocks, pageNo);
      return Ok(patch);
    }
    var result := ClearAll(patch, order, ambiguous, blocks, pageNo);
    StabilizedValid(patch, result, blocks, pageNo);
    assert ValidPatch(result);  // the constructor's checks pass
    return Ok(result);
  }

  method ClearAll(patch: LayoutPatch, order: seq<string>, ambiguous: set<string>, blocks: seq<Block>, pageNo: int)
    returns (result: LayoutPatch)
    requires ambiguous <= patch.parent.Keys && ambiguous <= patch.group.Keys
    requires ambiguous <= patch.role.Keys && ambiguous <= patch.excluded.Keys
    requires StableOrder(patch.order, order, blocks, pageNo)
    requires forall id :: id in ambiguous <==> Ambiguous(blocks, pageNo, id)
    ensures IsStabilized(patch, result, blocks, pageNo)
  {
    var parent := ClearRelation(patch.parent, ambiguous, blocks, pageNo);
    var role := ClearOwn(patch.role, ambiguous);
    var group := ClearRelation(patch.group, ambiguous, blocks, pageNo);
    var excluded := ClearOwn(patch.excluded, ambiguous);
    var headings := ClearHeadings(patch.headings, ambiguous, blocks, pageNo);
    result := LayoutPatch(patch.pageNo, order, parent, headings, role, group, excluded, patch.fingerprint);
  }

  method ClearRelation(relation: Relation, ambiguous: set<string>, ghost blocks: seq<Block>, ghost pageNo: int)
    returns (result: Relation)
    requires ambiguous <= relation.Keys
    requires forall id :: id in ambiguous <==> Ambiguous(blocks, pageNo, id)
    ensures RelationCleared(relation, result, blocks, pageNo)
  {
    var own := ClearOwn(relation, ambiguous);
    result := ClearTargets(own, ambiguous);
  }

  /** The comprehension that drops section references to ambiguous blocks. */
  method ClearHeadings(
    headings: map<string, seq<string>>, ambiguous: set<string>, ghost blocks: seq<Block>, ghost pageNo: int)
    returns (result: map<string, seq<string>>)
    requires forall id :: id in ambiguous <==> Ambiguous(blocks, pageNo, id)
    ensures HeadingsCleared(headings, result, blocks, pageNo)
  {
    result := map id | id in headings :: Filter(headings[id], h => h !in ambiguous);
    forall id | id in headings ensures result[id] == Filter(headings[id], Unambiguous(blocks, pageNo)) {
      FilterAgrees(headings[id], h => h !in ambiguous, Unambiguous(blocks, pageNo));
    }
  }

  // ----- consequences

  lemma PatchDistinct(patch: LayoutPatch)
    requires ValidPatch(patch)
    ensures Distinct(patch.order)
  {
    DistinctCount(patch.order);
  }

  lemma StableWithoutGroups(patch: LayoutPatch, order: seq<string>, blocks: seq<Block>, pageNo: int)
    requires forall id :: !Ambiguous(blocks, pageNo, id)
    requires StableOrder(patch.order, order, blocks, pageNo)
    ensures IsStabilized(patch, patch, blocks, pageNo)
  {
    assert order == patch.order;
    forall id | id in patch.headings
      ensures patch.headings[id] == Filter(patch.headings[id], Unambiguous(blocks, pageNo))
    {
      FilterAll(patch.headings[id], Unambiguous(blocks, pageNo));
    }
  }

  /** Stabilization only permutes the page. */
  lemma StablePermutes(order: seq<string>, result: seq<string>, blocks: seq<Block>, pageNo: int)
    requires Distinct(order) && DistinctIds(blocks) && Elements(Ids(blocks)) == Elements(order)
    requires StableOrder(order, result, blocks, pageNo)
    ensures Distinct(result) && Elements(result) == Elements(order)
  {
    forall p | 0 <= p < |result| ensures result[p] in order {
      if Ambiguous(blocks, pageNo, order[p]) {
        var key: BoxKey :| |SameBox(blocks, pageNo, key)| > 1 && order[p] in SameBox(blocks, pageNo, key);
        assert GroupPlaced(order, result, SameBox(blocks, pageNo, key));
        GroupFacts(blocks, pageNo, key);
        var b :| b in blocks && b.blockId == result[p] && BoxOf(b, pageNo) == Some(key);
        var k :| 0 <= k < |blocks| && blocks[k] == b;
        assert Ids(blocks)[k] == result[p] && result[p] in Elements(order);
      }
    }
    forall i, j | 0 <= i < j < |result| ensures result[i] != result[j] {
      if result[i] == result[j] { StableRepeat(order, result, blocks, pageNo, i, j); }
    }
    DrawnWhole(order, result);
  }

  lemma StableRepeat(order: seq<string>, result: seq<string>, blocks: seq<Block>, pageNo: int, i: nat, j: nat)
    requires Distinct(order) && DistinctIds(blocks) && StableOrder(order, result, blocks, pageNo)
    requires i < j < |result|
    ensures result[i] != result[j]
  {
    if key: BoxKey :| |SameBox(blocks, pageNo, key)| > 1 && result[i] in SameBox(blocks, pageNo, key) {
      var group := SameBox(blocks, pageNo, key);
      assert GroupPlaced(order, result, group);
      GroupFacts(blocks, pageNo, key);
      if result[j] in group {
        FilterAt(result, Within(group), i);
        FilterAt(result, Within(group), j);
        FilterAtOrder(result, Within(group), i, j);
      }
    } else {
      StableUnmoved(order, result, blocks, pageNo, i);
      if result[j] == result[i] { StableUnmoved(order, result, blocks, pageNo, j); }
    }
  }

  /** A block in no shared box stands where it stood. */
  lemma StableUnmoved(order: seq<string>, result: seq<string>, blocks: seq<Block>, pageNo: int, p: nat)
    requires StableOrder(order, result, blocks, pageNo) && p < |result|
    requires !Ambiguous(blocks, pageNo, result[p])
    ensures result[p] == order[p]
  {
  }

  /** The stabilized order is determined: ambiguous groups in canonical order on their
      positions, everything else where it was. */
  lemma StableUnique(order: seq<string>, a: seq<string>, b: seq<string>, blocks: seq<Block>, pageNo: int)
    requires StableOrder(order, a, blocks, pageNo) && StableOrder(order, b, blocks, pageNo)
    ensures a == b
  {
    forall p | 0 <= p < |order| ensures a[p] == b[p] {
      if Ambiguous(blocks, pageNo, order[p]) {
        var key: BoxKey :| |SameBox(blocks, pageNo, key)| > 1 && order[p] in SameBox(blocks, pageNo, key);
        var group := SameBox(blocks, pageNo, key);
        assert GroupPlaced(order, a, group) && GroupPlaced(order, b, group);
        FilterAt(a, Within(group), p);
        FilterAt(b, Within(group), p);
        forall q | 0 <= q < p ensures Within(group)(a[..p][q]) == Within(group)(b[..p][q]) {
          assert order[q] in group <==> a[q] in group;
        }
        FilterSameLength(a[..p], b[..p], Within(group));
      }
    }
  }

  lemma StabilizedUnique(patch: LayoutPatch, a: LayoutPatch, b: LayoutPatch, blocks: seq<Block>, pageNo: int)
    requires IsStabilized(patch, a, blocks, pageNo) && IsStabilized(patch, b, blocks, pageNo)
    ensures a == b
  {
    StableUnique(patch.order, a.order, b.order, blocks, pageNo);
    assert a.parent == b.parent && a.group == b.group && a.role == b.role;
    assert a.excluded == b.excluded && a.headings == b.headings;
  }

  lemma StabilizedValid(patch: LayoutPatch, result: LayoutPatch, blocks: seq<Block>, pageNo: int)
    requires ValidPatch(patch) && DistinctIds(blocks) && Elements(Ids(blocks)) == Elements(patch.order)
    requires IsStabilized(patch, result, blocks, pageNo)
    ensures ValidPatch(result) && Elements(result.order) == Elements(patch.order)
  {
    var expected := Elements(patch.order);
    StabilizedOrderValid(patch, result, blocks, pageNo);
    StabilizedRelationsValid(patch, result, blocks, pageNo, expected);
    HeadingsStayValid(patch.headings, result.headings, blocks, pageNo, expected);
  }

  lemma StabilizedOrderValid(patch: LayoutPatch, result: LayoutPatch, blocks: seq<Block>, pageNo: int)
    requires ValidPatch(patch) && DistinctIds(blocks) && Elements(Ids(blocks)) == Elements(patch.order)
    requires StableOrder(patch.order, result.order, blocks, pageNo)
    ensures Elements(result.order) == Elements(patch.order)
    ensures |Elements(result.order)| == |result.order| == |patch.order|
    ensures forall id | id in result.order :: StartsWith(id, "blk_")
  {
    PatchDistinct(patch);
    StablePermutes(patch.order, result.order, blocks, pageNo);
    DistinctCount(result.order);
    forall id | id in result.order ensures StartsWith(id, "blk_") {
      assert id in Elements(patch.order) && id in patch.order;
    }
  }

  lemma StabilizedRelationsValid(
    patch: LayoutPatch, result: LayoutPatch, blocks: seq<Block>, pageNo: int, expected: set<string>)
    requires ValidPatch(patch) && expected == Elements(patch.order) && IsStabilized(patch, result, blocks, pageNo)
    ensures ValidRelation(result.parent, expected) && TargetsIn(result.parent, expected)
    ensures ValidRelation(result.group, expected) && TargetsIn(result.group, expected)
    ensures ValidRelation(result.role, expected) && TargetsIn(result.role, LAYOUT_ROLES)
    ensures ValidRelation(result.excluded, expected) && TargetsIn(result.excluded, EXCLUSION_REASONS)
    ensures forall id {:trigger result.parent[id]} | id in result.parent :: result.parent[id] != Some(id)
  {
    RelationStaysValid(patch.parent, result.parent, blocks, pageNo, expected);
    RelationStaysValid(patch.group, result.group, blocks, pageNo, expected);
    OwnStaysValid(patch.role, result.role, blocks, pageNo, expected, LAYOUT_ROLES);
    OwnStaysValid(patch.excluded, result.excluded, blocks, pageNo, expected, EXCLUSION_REASONS);
  }

  lemma RelationStaysValid(before: Relation, after: Relation, blocks: seq<Block>, pageNo: int, expected: set<string>)
    requires ValidRelation(before, expected) && TargetsIn(before, expected)
    requires RelationCleared(before, after, blocks, pageNo)
    ensures ValidRelation(after, expected) && TargetsIn(after, expected)
    ensures forall id {:trigger after[id]} | id in before :: after[id] == None || after[id] == before[id]
  {
  }

  /** Neither end of a surviving relation is ambiguous. */
  ghost predicate EndsUnambiguous(relation: Relation, blocks: seq<Block>, pageNo: int) {
    forall id {:trigger relation[id]} | id in relation && relation[id].Some? ::
      !Ambiguous(blocks, pageNo, id) && !Ambiguous(blocks, pageNo, relation[id].value)
  }

  lemma OwnStaysValid(
    before: Relation, after: Relation, blocks: seq<Block>, pageNo: int, expected: set<string>, allowed: set<string>)
    requires ValidRelation(before, expected) && TargetsIn(before, allowed)
    requires OwnValueCleared(before, after, blocks, pageNo)
    ensures ValidRelation(after, expected) && TargetsIn(after, allowed)
  {
  }

  lemma HeadingsStayValid(
    before: map<string, seq<string>>, after: map<string, seq<string>>, blocks: seq<Block>, pageNo: int,
    expected: set<string>)
    requires ValidHeadings(before, expected) && HeadingsCleared(before, after, blocks, pageNo)
    ensures ValidHeadings(after, expected)
  {
    forall id | id in after
      ensures |after[id]| <= 16 && |Elements(after[id])| == |after[id]|
      ensures forall h | h in after[id] :: h in before[id]
    {
      DistinctCount(before[id]);
      FilterDistinct(before[id], Unambiguous(blocks, pageNo));
      DistinctCount(after[id]);
    }
  }

  /** What the caller of a stabilized patch may rely on: it is still a valid exact permutation,
      still acyclic, its headings still supported, nothing is newly excluded, and no parent, group
      or section reference points at an ambiguous block. */
  lemma StabilizedPatch(
    patch: LayoutPatch, result: LayoutPatch, blocks: seq<Block>, pageNo: int, labels: map<string, string>)
    requires ValidPatch(patch) && DistinctIds(blocks) && Elements(Ids(blocks)) == Elements(patch.order)
    requires IsStabilized(patch, result, blocks, pageNo)
    requires Acyclic(patch.parent) && HeadingsSupported(patch, labels)
    ensures ValidPatch(result) && Elements(result.order) == Elements(patch.order)
    ensures Acyclic(result.parent) && HeadingsSupported(result, labels)
    ensures NothingExcluded(patch) ==> NothingExcluded(result)
    ensures EndsUnambiguous(result.parent, blocks, pageNo) && EndsUnambiguous(result.group, blocks, pageNo)
    ensures forall id, h | id in result.headings && h in result.headings[id] :: !Ambiguous(blocks, pageNo, h)
  {
    StabilizedValid(patch, result, blocks, pageNo);
    ClearedRelation(patch.parent, result.parent, blocks, pageNo);
    ClearedRelation(patch.group, result.group, blocks, pageNo);
    StabilizedHeadings(patch, result, blocks, pageNo, labels);
  }

  lemma ClearedRelation(before: Relation, after: Relation, blocks: seq<Block>, pageNo: int)
    requires RelationCleared(before, after, blocks, pageNo)
    ensures Acyclic(before) ==> Acyclic(after)
    ensures EndsUnambiguous(after, blocks, pageNo)
  {
    if Acyclic(before) { ClearingKeepsAcyclic(before, after); }
  }

  lemma StabilizedHeadings(
    patch: LayoutPatch, result: LayoutPatch, blocks: seq<Block>, pageNo: int, labels: map<string, string>)
    requires patch.role.Keys == patch.headings.Keys == result.role.Keys
    requires HeadingsSupported(patch, labels)
    requires HeadingsCleared(patch.headings, result.headings, blocks, pageNo)
    requires OwnValueCleared(patch.role, result.role, blocks, pageNo)
    ensures HeadingsSupported(result, labels)
    ensures forall id, h | id in result.headings && h in result.headings[id] :: !Ambiguous(blocks, pageNo, h)
  {
  }

  /** Stabilizing a stabilized patch changes nothing. */
  lemma StabilizeIdempotent(
    patch: LayoutPatch, once: LayoutPatch, twice: LayoutPatch, blocks: seq<Block>, pageNo: int)
    requires IsStabilized(patch, once, blocks, pageNo) && IsStabilized(once, twice, blocks, pageNo)
    ensures twice == once
  {
    forall id | id in once.headings
      ensures once.headings[id] == Filter(once.headings[id], Unambiguous(blocks, pageNo))
    {
      FilterAll(once.headings[id], Unambiguous(blocks, pageNo));
    }
    assert StableOrder(once.order, once.order, blocks, pageNo) by {
      forall key: BoxKey | |SameBox(blocks, pageNo, key)| > 1
        ensures GroupPlaced(once.order, once.order, SameBox(blocks, pageNo, key))
      {
        assert GroupPlaced(patch.order, once.order, SameBox(blocks, pageNo, key));
      }
    }
    assert IsStabilized(once, once, blocks, pageNo);
    StabilizedUnique(once, once, twice, blocks, pageNo);
  }
}
