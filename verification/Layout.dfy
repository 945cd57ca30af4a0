/** Records of the visual layout step (models.py) and the walk that rejects
    cyclic parent relations (models.py and backends.py). */
module Layout {
  import opened Common

  datatype Box = Box(left: real, top: real, right: real, bottom: real)

  datatype Provenance = Provenance(
    selfRef: string,
    pageNo: Option<int>,
    bbox: Option<Box>,
    charspan: Option<(int, int)>,
    coordOrigin: Option<string>)

  datatype Modality = TextBlock | TableBlock | ImageBlock | KeyValueBlock

  datatype Block = Block(
    blockId: string,
    sourceId: string,
    sourceRevision: string,
    ordinal: int,
    modality: Modality,
    blockLabel: string,
    text: string,
    sectionPath: seq<string>,
    provenance: seq<Provenance>,
    metadata: map<string, string>,
    imageDataUri: Option<string>)

  const MAX_METADATA := 64

  predicate ValidMetadata(metadata: map<string, string>) {
    && |metadata| <= MAX_METADATA
    && forall key | key in metadata :: 1 <= |key| <= 128 && |metadata[key]| <= 4096
  }

  predicate ValidSectionPath(path: seq<string>) {
    |path| <= 16 && forall i | 0 <= i < |path| :: 1 <= |path[i]| <= 500
  }

  predicate ValidBlockId(id: string) {
    StartsWith(id, "blk_") && |id| == 36
  }

  /** `StructuredBlock.__post_init__`. */
  predicate ValidBlock(b: Block) {
    && ValidBlockId(b.blockId)
    && StartsWith(b.sourceId, "src_")
    && b.ordinal >= 0
    && !Blank(b.text) && |b.text| <= 2_000_000
    && ValidSectionPath(b.sectionPath)
    && b.provenance != []
    && ValidMetadata(b.metadata)
  }

  const LAYOUT_ROLES: set<string> := {
    "title", "section_header", "body", "caption", "note", "figure", "table", "list",
    "list_item", "code", "formula", "key_value", "header", "footer", "other" }

  const HEADING_ROLES: set<string> := {"title", "section_header"}

  const EXCLUSION_REASONS: set<string> := {"decorative", "repeated_header", "repeated_footer"}

  type Relation = map<string, Option<string>>

  datatype LayoutPatch = LayoutPatch(
    pageNo: int,
    order: seq<string>,
    parent: Relation,
    headings: map<string, seq<string>>,
    role: Relation,
    group: Relation,
    excluded: Relation,
    fingerprint: string)

  /** `_layout_mapping`: the keys are exactly the page's blocks, values bounded or null. */
  predicate ValidRelation(relation: Relation, expected: set<string>) {
    && relation.Keys == expected
    && forall id {:trigger relation[id]} | id in relation :: relation[id].Some? ==> 1 <= |relation[id].value| <= 512
  }

  /** `_layout_section_id_mapping`. */
  predicate ValidHeadings(headings: map<string, seq<string>>, expected: set<string>) {
    && headings.Keys == expected
    && forall id {:trigger headings[id]} | id in headings ::
         && |headings[id]| <= 16
         && |Elements(headings[id])| == |headings[id]|
         && forall h | h in headings[id] :: StartsWith(h, "blk_") && h in expected
  }

  predicate TargetsIn(relation: Relation, allowed: set<string>) {
    forall id {:trigger relation[id]} | id in relation :: relation[id].Some? ==> relation[id].value in allowed
  }

  /** `LayoutPatch.__post_init__`. */
  predicate ValidPatch(p: LayoutPatch) {
    var expected := Elements(p.order);
    && p.pageNo >= 1
    && 1 <= |p.order| <= 20_000
    && |expected| == |p.order|
    && (forall id | id in p.order :: StartsWith(id, "blk_"))
    && ValidRelation(p.parent, expected)
    && ValidRelation(p.group, expected)
    && ValidRelation(p.role, expected)
    && ValidRelation(p.excluded, expected)
    && ValidHeadings(p.headings, expected)
    && TargetsIn(p.parent, expected)
    && TargetsIn(p.group, expected)
    && (forall id {:trigger p.parent[id]} | id in p.parent :: p.parent[id] != Some(id))
    && TargetsIn(p.role, LAYOUT_ROLES)
    && TargetsIn(p.excluded, EXCLUSION_REASONS)
    && !Blank(p.fingerprint) && |p.fingerprint| <= 512
  }

  /** `_primary_page`: the lowest page among a block's locations. */
  function PrimaryPage(b: Block): Option<int> {
    LowestPage(b.provenance)
  }

  function LowestPage(locations: seq<Provenance>): (page: Option<int>)
    ensures page.None? <==> forall l | l in locations :: l.pageNo.None?
    ensures page.Some? ==> exists l | l in locations :: l.pageNo == page
    ensures page.Some? ==> forall l | l in locations :: l.pageNo.Some? ==> page.value <= l.pageNo.value
  {
    if locations == [] then None else
      var rest := LowestPage(locations[1..]);
      var head := locations[0];
      assert locations == [head] + locations[1..];
      assert head in locations;
      assert forall l | l in locations[1..] :: l in locations;
      if head.pageNo.None? then rest
      else if rest.None? || head.pageNo.value <= rest.value then head.pageNo
      else rest
  }

  // ----- the parent graph

  /** The block reached by following `k` parent links from `x`, if the chain is that long. */
  ghost function Ancestor(parent: Relation, x: string, k: nat): Option<string> {
    if k == 0 then Some(x) else
      var below := Ancestor(parent, x, k - 1);
      if below.Some? && below.value in parent then parent[below.value] else None
  }

  /** No block is its own proper ancestor. */
  ghost predicate Acyclic(parent: Relation) {
    forall x, k: nat | x in parent && k > 0 :: Ancestor(parent, x, k) != Some(x)
  }

  ghost predicate ReachesRoot(parent: Relation, x: string) {
    exists n: nat :: Ancestor(parent, x, n) == None
  }

  lemma {:induction false} AncestorAdds(parent: Relation, x: string, y: string, m: nat, n: nat)
    requires Ancestor(parent, x, m) == Some(y)
    ensures Ancestor(parent, x, m + n) == Ancestor(parent, y, n)
  {
    if n > 0 { AncestorAdds(parent, x, y, m, n - 1); }
  }

  lemma {:induction false} RootStays(parent: Relation, x: string, m: nat, n: nat)
    requires Ancestor(parent, x, m) == None && m <= n
    ensures Ancestor(parent, x, n) == None
  {
    if m < n { RootStays(parent, x, m, n - 1); }
  }

  lemma {:induction false} CycleRepeats(parent: Relation, x: string, k: nat, times: nat)
    requires k > 0 && Ancestor(parent, x, k) == Some(x)
    ensures Ancestor(parent, x, times * k) == Some(x)
  {
    if times > 0 {
      CycleRepeats(parent, x, k, times - 1);
      AncestorAdds(parent, x, x, (times - 1) * k, k);
      assert (times - 1) * k + k == times * k;
    }
  }

  /** A graph whose every chain ends has no cycle. */
  lemma {:induction false} RootsAcyclic(parent: Relation)
    requires forall x | x in parent :: ReachesRoot(parent, x)
    ensures Acyclic(parent)
  {
    forall x, k: nat | x in parent && k > 0 ensures Ancestor(parent, x, k) != Some(x) {
      if Ancestor(parent, x, k) == Some(x) {
        var n: nat :| Ancestor(parent, x, n) == None;
        CycleRepeats(parent, x, k, n);
        assert n <= n * k;
        RootStays(parent, x, n, n * k);
        assert false;
      }
    }
  }

  /** Clearing parents keeps a graph acyclic. */
  lemma {:induction false} ClearingKeepsAcyclic(parent: Relation, cleared: Relation)
    requires Acyclic(parent) && cleared.Keys == parent.Keys
    requires forall x | x in parent :: cleared[x] == None || cleared[x] == parent[x]
    ensures Acyclic(cleared)
  {
    forall x, k: nat | x in cleared && k > 0 ensures Ancestor(cleared, x, k) != Some(x) {
      ClearedAncestor(parent, cleared, x, k);
    }
  }

  lemma {:induction false} ClearedAncestor(parent: Relation, cleared: Relation, x: string, k: nat)
    requires cleared.Keys == parent.Keys
    requires forall y | y in parent :: cleared[y] == None || cleared[y] == parent[y]
    ensures Ancestor(cleared, x, k) == None || Ancestor(cleared, x, k) == Ancestor(parent, x, k)
  {
    if k > 0 { ClearedAncestor(parent, cleared, x, k - 1); }
  }

  /** The inner `while current is not None` loop shared by both walkers. */
  method WalkRevisits(parent: Relation, start: string) returns (revisits: bool)
    requires start in parent && TargetsIn(parent, parent.Keys)
    ensures revisits ==> !Acyclic(parent)
    ensures !revisits ==> ReachesRoot(parent, start)
  {
    var seen: set<string> := {};
    var current := Some(start);
    ghost var steps: nat := 0;
    while current.Some?
      invariant current == Ancestor(parent, start, steps)
      invariant current.Some? ==> current.value in parent
      invariant seen <= parent.Keys
      invariant forall x | x in seen :: exists i: nat | i < steps :: Ancestor(parent, start, i) == Some(x)
      decreases parent.Keys - seen, current
    {
      var x := current.value;
      if x in seen {
        ghost var i: nat :| i < steps && Ancestor(parent, start, i) == Some(x);
        AncestorAdds(parent, start, x, i, steps - i);
        return true;
      }
      seen := seen + {x};
      current := parent[x];
      steps := steps + 1;
    }
    return false;
  }

  /** `_verify_parent_cycles` (backends.py): accepts exactly the acyclic parent maps. */
  method VerifyParentCycles(parent: Relation) returns (accepted: bool)
    requires TargetsIn(parent, parent.Keys)
    ensures accepted <==> Acyclic(parent)
  {
    var pending := parent.Keys;
    while pending != {}
      invariant pending <= parent.Keys
      invariant forall x | x in parent && x !in pending :: ReachesRoot(parent, x)
    {
      var start :| start in pending;
      var revisits := WalkRevisits(parent, start);
      if revisits { return false; }
      pending := pending - {start};
    }
    RootsAcyclic(parent);
    return true;
  }

  /** `_verify_layout_parent_graph` (models.py): the same walk in reading order. */
  method VerifyLayoutParentGraph(order: seq<string>, parent: Relation) returns (accepted: bool)
    requires parent.Keys == Elements(order) && TargetsIn(parent, parent.Keys)
    ensures accepted <==> Acyclic(parent)
  {
    for i := 0 to |order|
      invariant forall j | 0 <= j < i :: ReachesRoot(parent, order[j])
    {
      var start := order[i];
      assert start in Elements(order);
      var revisits := WalkRevisits(parent, start);
      if revisits { return false; }
    }
    RootsAcyclic(parent);
    return true;
  }
}
