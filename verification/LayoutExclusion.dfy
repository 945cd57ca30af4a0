/** With exclusions on, a response the parser accepts can still be refused by the verifier: nothing in
    `_parse_layout_patch` (backends.py) compares relations with the excluded blocks, while
    `_verify_layout_patches` (models.py) refuses a relation that points at one. */
module LayoutExclusion {
  import opened Common
  import opened Text
  import opened Layout
  import opened LayoutParse
  import opened LayoutStabilize
  import opened LayoutApply
  import opened LayoutPipeline

  function Pair<T>(a: string, b: string, x: T, y: T): map<string, T> {
    map[a := x, b := y]
  }

  function PairObject(a: string, b: string, x: Json, y: Json): Json {
    JObject(Pair(a, b, x, y))
  }

  /** `b` is placed under `a`, and `a` is to be dropped as decorative. */
  function UnderDropped(page: int, a: string, b: string): Response {
    map["page_no" := JNumber(page as real),
        "ordered_block_ids" := JArray([JString(a), JString(b)]),
        "parent_by_block" := PairObject(a, b, JNull, JString(a)),
        "section_heading_ids_by_block" := PairObject(a, b, JArray([]), JArray([])),
        "role_by_block" := PairObject(a, b, JNull, JNull),
        "group_by_block" := PairObject(a, b, JNull, JNull),
        "excluded_reason_by_block" := PairObject(a, b, JString("decorative"), JNull)]
  }

  function DroppedPatch(page: int, a: string, b: string, fingerprint: string): LayoutPatch {
    LayoutPatch(page, [a, b], Pair(a, b, None, Some(a)), Pair(a, b, [], []), Pair(a, b, None, None),
                Pair(a, b, None, None), Pair(a, b, Some("decorative"), None), fingerprint)
  }

  /** Two blocks of one document on one page, neither with a box. */
  predicate UnboxedPair(x: Block, y: Block, page: int) {
    && page >= 1 && ValidBlock(x) && ValidBlock(y) && x.blockId != y.blockId
    && x.sourceId == y.sourceId && x.sourceRevision == y.sourceRevision
    && PrimaryPage(x) == Some(page) && PrimaryPage(y) == Some(page)
    && BoxOf(x, page) == None && BoxOf(y, page) == None
  }

  lemma PairOnPage(x: Block, y: Block, page: int)
    requires UnboxedPair(x, y, page)
    ensures RawAccepted([x, y]) && Filter([x, y], OnPage(page)) == [x, y]
    ensures IdsOnPage([x, y], page) == [x.blockId, y.blockId]
  {
    assert PrimaryPage(x) == Some(page) && PrimaryPage(y) == Some(page);
    FilterAll([x, y], OnPage(page));
  }

  lemma PairElements(a: string, b: string)
    ensures Elements([a, b]) == {a, b} && (a != b ==> |{a, b}| == 2)
  {
  }

  /** Without boxes nothing is ambiguous. */
  lemma UnboxedClear(x: Block, y: Block, page: int, id: string)
    requires UnboxedPair(x, y, page)
    ensures !Ambiguous([x, y], page, id)
  {
    PairOnPage(x, y, page);
    if key: BoxKey :| |SameBox([x, y], page, key)| > 1 && id in SameBox([x, y], page, key) {
      GroupFacts([x, y], page, key);
    }
  }

  // ----- the parser accepts

  function Nullable(x: Option<string>): Json {
    if x.Some? then JString(x.value) else JNull
  }

  predicate Bounded(x: Option<string>) {
    x.Some? ==> 1 <= |x.value| <= 512
  }

  lemma RelationRead(a: string, b: string, x: Option<string>, y: Option<string>)
    requires a != b && Bounded(x) && Bounded(y)
    ensures ReadRelation(PairObject(a, b, Nullable(x), Nullable(y)), {a, b}) == Ok(Pair(a, b, x, y))
  {
    var value := PairObject(a, b, Nullable(x), Nullable(y));
    assert value.fields.Keys == {a, b};
    assert forall id | id in {a, b} :: NullableString(value.fields[id]);
    var read := ReadRelation(value, {a, b}).value;
    assert read.Keys == {a, b} && read[a] == x && read[b] == y;
    assert read == Pair(a, b, x, y);
  }

  lemma HeadingsRead(a: string, b: string)
    requires a != b
    ensures ReadHeadings(PairObject(a, b, JArray([]), JArray([])), {a, b}) == Ok(Pair(a, b, [], []))
  {
    var value := PairObject(a, b, JArray([]), JArray([]));
    assert value.fields.Keys == {a, b};
    assert Texts([]) == [] && Elements(Texts([])) == {};
    assert forall id | id in {a, b} :: HeadingIds(value.fields[id], {a, b});
    var read := ReadHeadings(value, {a, b}).value;
    assert read.Keys == {a, b} && read[a] == [] && read[b] == [];
    assert read == Pair(a, b, [], []);
  }

  /** The response holds these fields. */
  predicate IsUnderDropped(r: Response, page: int, a: string, b: string) {
    && r.Keys == RESPONSE_FIELDS
    && r["page_no"] == JNumber(page as real)
    && r["ordered_block_ids"] == JArray([JString(a), JString(b)])
    && r["parent_by_block"] == PairObject(a, b, JNull, JString(a))
    && r["section_heading_ids_by_block"] == PairObject(a, b, JArray([]), JArray([]))
    && r["role_by_block"] == PairObject(a, b, JNull, JNull)
    && r["group_by_block"] == PairObject(a, b, JNull, JNull)
    && r["excluded_reason_by_block"] == PairObject(a, b, JString("decorative"), JNull)
  }

  lemma UnderDroppedFields(page: int, a: string, b: string)
    ensures IsUnderDropped(UnderDropped(page, a, b), page, a, b)
  {
    assert |"page_no"| == 7 && |"role_by_block"| == 13 && |"group_by_block"| == 14 && |"parent_by_block"| == 15;
    assert |"ordered_block_ids"| == 17 && |"excluded_reason_by_block"| == 24 && |"section_heading_ids_by_block"| == 28;
  }

  lemma FieldsRead(r: Response, page: int, a: string, b: string)
    requires IsUnderDropped(r, page, a, b) && a != b && 1 <= |a| <= 512
    ensures ReadFields(r, {a, b}) == Ok(DroppedFields(a, b))
  {
    RelationRead(a, b, None, Some(a));
    RelationRead(a, b, None, None);
    RelationRead(a, b, Some("decorative"), None);
    HeadingsRead(a, b);
  }

  function DroppedFields(a: string, b: string): Fields {
    Fields(Pair(a, b, None, Some(a)), Pair(a, b, None, None), Pair(a, b, None, None),
           Pair(a, b, Some("decorative"), None), Pair(a, b, [], []))
  }

  lemma PairRelation(a: string, b: string, x: Option<string>, y: Option<string>, allowed: set<string>)
    requires a != b && Bounded(x) && Bounded(y)
    ensures ValidRelation(Pair(a, b, x, y), {a, b})
    ensures (x.Some? ==> x.value in allowed) && (y.Some? ==> y.value in allowed) ==>
      TargetsIn(Pair(a, b, x, y), allowed)
  {
  }

  lemma FieldsFaultless(a: string, b: string, labels: map<string, string>)
    requires a != b && 1 <= |a| <= 512 && labels.Keys == {a, b}
    ensures FieldsFault(DroppedFields(a, b), {a, b}, labels, true) == None
  {
    PairRelation(a, b, None, Some(a), {a, b});
    PairRelation(a, b, None, None, {a, b});
    PairRelation(a, b, None, None, LAYOUT_ROLES);
    PairRelation(a, b, Some("decorative"), None, EXCLUSION_REASONS);
  }

  lemma OrderRead(a: string, b: string)
    requires a != b
    ensures ReadOrder(JArray([JString(a), JString(b)]), [a, b]) == Ok([a, b])
  {
    PairElements(a, b);
    assert Texts([JString(a), JString(b)]) == [a, b];
  }

  lemma ResponseRead(r: Response, page: int, a: string, b: string, labels: map<string, string>, fingerprint: string)
    requires IsUnderDropped(r, page, a, b) && a != b && 1 <= |a| <= 512 && labels.Keys == {a, b}
    ensures ReadResponse(r, page, [a, b], labels, fingerprint, true) == Ok(DroppedPatch(page, a, b, fingerprint))
  {
    PairElements(a, b);
    OrderRead(a, b);
    FieldsRead(r, page, a, b);
    FieldsFaultless(a, b, labels);
    NoHeadings(a, b, labels);
  }

  lemma NoHeadings(a: string, b: string, labels: map<string, string>)
    ensures SupportedHeadings(Pair(a, b, [], []), labels, Pair(a, b, None, None)) == Pair(a, b, [], [])
  {
  }

  lemma DroppedAcyclic(a: string, b: string)
    requires a != b
    ensures Acyclic(Pair(a, b, None, Some(a)))
  {
    var parent := Pair(a, b, None, Some(a));
    assert Ancestor(parent, a, 1) == None && Ancestor(parent, b, 2) == None by {
      assert Ancestor(parent, a, 0) == Some(a) && Ancestor(parent, b, 1) == Some(a);
    }
    RootsAcyclic(parent);
  }

  lemma DroppedValid(page: int, a: string, b: string, fingerprint: string)
    requires page >= 1 && a != b && ValidBlockId(a) && ValidBlockId(b) && !Blank(fingerprint) && |fingerprint| <= 512
    ensures ValidPatch(DroppedPatch(page, a, b, fingerprint))
  {
    PairElements(a, b);
    PairRelation(a, b, None, Some(a), {a, b});
    PairRelation(a, b, None, None, {a, b});
    PairRelation(a, b, None, None, LAYOUT_ROLES);
    PairRelation(a, b, Some("decorative"), None, EXCLUSION_REASONS);
    PairHeadings(a, b);
  }

  lemma PairHeadings(a: string, b: string)
    ensures ValidHeadings(Pair(a, b, [], []), {a, b})
  {
    assert Elements<string>([]) == {};
  }

  lemma PairLabels(x: Block, y: Block, page: int)
    requires UnboxedPair(x, y, page)
    ensures LabelsOn([x, y], page).Keys == {x.blockId, y.blockId}
  {
    PairOnPage(x, y, page);
    PairElements(x.blockId, y.blockId);
  }

  lemma PairIds(x: Block, y: Block, page: int)
    requires UnboxedPair(x, y, page)
    ensures IdsOnPage([x, y], page) == [x.blockId, y.blockId] && ValidBlockId(x.blockId) && ValidBlockId(y.blockId)
  {
    PairOnPage(x, y, page);
  }

  lemma DroppedParsed(x: Block, y: Block, page: int, fingerprint: string)
    requires UnboxedPair(x, y, page) && !Blank(fingerprint) && |fingerprint| <= 512
    ensures ParsedOn([x, y], page, UnderDropped(page, x.blockId, y.blockId), fingerprint, true)
         == Ok(DroppedPatch(page, x.blockId, y.blockId, fingerprint))
  {
    var labels := LabelsOn([x, y], page);
    PairIds(x, y, page);
    PairLabels(x, y, page);
    PatchParsed(x.blockId, y.blockId, page, labels, fingerprint);
    SameParsed([x, y], [x.blockId, y.blockId], page, UnderDropped(page, x.blockId, y.blockId), labels, fingerprint);
  }

  lemma SameParsed(
    raw: seq<Block>, ids: seq<string>, page: int, response: Response, labels: map<string, string>, fingerprint: string)
    requires IdsOnPage(raw, page) == ids && LabelsOn(raw, page) == labels
    ensures ParsedOn(raw, page, response, fingerprint, true)
      == ParsedPatch(response, page, ids, labels, fingerprint, true)
  {
  }

  lemma PatchParsed(a: string, b: string, page: int, labels: map<string, string>, fingerprint: string)
    requires page >= 1 && a != b && ValidBlockId(a) && ValidBlockId(b) && labels.Keys == {a, b}
    requires !Blank(fingerprint) && |fingerprint| <= 512
    ensures ParsedPatch(UnderDropped(page, a, b), page, [a, b], labels, fingerprint, true)
         == Ok(DroppedPatch(page, a, b, fingerprint))
  {
    UnderDroppedFields(page, a, b);
    ResponseRead(UnderDropped(page, a, b), page, a, b, labels, fingerprint);
    DroppedAcyclic(a, b);
    DroppedValid(page, a, b, fingerprint);
  }

  // ----- stabilization keeps it, the verifier refuses it

  lemma DroppedStable(x: Block, y: Block, page: int, fingerprint: string)
    requires UnboxedPair(x, y, page)
    ensures var patch := DroppedPatch(page, x.blockId, y.blockId, fingerprint);
      IsStabilized(patch, patch, [x, y], page)
  {
    forall id ensures !Ambiguous([x, y], page, id) { UnboxedClear(x, y, page, id); }
    forall key: BoxKey ensures |SameBox([x, y], page, key)| <= 1 {
      if |SameBox([x, y], page, key)| > 1 { assert Ambiguous([x, y], page, SameBox([x, y], page, key)[0]); }
    }
  }

  lemma DroppedRefused(x: Block, y: Block, page: int, fingerprint: string)
    requires x.blockId != y.blockId
    ensures !PatchesAccepted([x, y], [DroppedPatch(page, x.blockId, y.blockId, fingerprint)], Some([page]), true)
  {
    var patch := DroppedPatch(page, x.blockId, y.blockId, fingerprint);
    assert patch.excluded[x.blockId].Some? && x.blockId in ExcludedBy(patch);
    assert patch.parent[y.blockId] == Some(x.blockId);
    assert patch in [patch] && !AvoidsExcluded(patch.parent, ExcludedIds([patch]));
  }

  /** A parent that is dropped: parsed, stabilized to itself, and refused. */
  lemma DroppedParentRefused(x: Block, y: Block, page: int, fingerprint: string)
    requires UnboxedPair(x, y, page) && !Blank(fingerprint) && |fingerprint| <= 512
    ensures var response := UnderDropped(page, x.blockId, y.blockId);
      var patch := DroppedPatch(page, x.blockId, y.blockId, fingerprint);
      && ParsedOn([x, y], page, response, fingerprint, true) == Ok(patch)
      && AllRefined([x, y], [page], [response], fingerprint, true, [patch])
      && !PatchesAccepted([x, y], [patch], Some([page]), true)
  {
    DroppedParsed(x, y, page, fingerprint);
    DroppedStable(x, y, page, fingerprint);
    PairOnPage(x, y, page);
    DroppedRefused(x, y, page, fingerprint);
  }

  function PlainBlock(id: string, ordinal: nat): Block {
    Block(id, "src_1", "revision", ordinal, TextBlock, "text", "A", [],
          [Provenance("#/texts/0", Some(1), None, None, None)], map[], None)
  }

  lemma PlainValid(id: string, ordinal: nat)
    requires ValidBlockId(id)
    ensures ValidBlock(PlainBlock(id, ordinal)) && PrimaryPage(PlainBlock(id, ordinal)) == Some(1)
    ensures BoxOf(PlainBlock(id, ordinal), 1) == None
  {
    assert "src_1"[..4] == "src_";
    assert !IsSpace("A"[0]);
  }

  /** Such a document exists: one, for every two block IDs. */
  lemma DroppedParentExists(a: string, b: string)
    requires ValidBlockId(a) && ValidBlockId(b) && a != b
    ensures UnboxedPair(PlainBlock(a, 0), PlainBlock(b, 1), 1)
  {
    PlainValid(a, 0);
    PlainValid(b, 1);
  }
}
