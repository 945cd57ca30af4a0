/** Reading one model response into a layout patch (`_parse_layout_patch`, backends.py).
    The response is any JSON object: nothing about it is trusted. */
module LayoutParse {
  import opened Common
  import opened Layout
  import opened Text

  datatype Json =
    | JNull
    | JBool(flag: bool)
    | JNumber(number: real)
    | JString(text: string)
    | JArray(items: seq<Json>)
    | JObject(fields: map<string, Json>)

  const RESPONSE_FIELDS: set<string> := {
    "page_no", "ordered_block_ids", "parent_by_block", "section_heading_ids_by_block",
    "role_by_block", "group_by_block", "excluded_reason_by_block" }

  /** Python's `value == n` for a decoded JSON value: `true` equals 1 and 3.0 equals 3. */
  predicate EqualsInt(value: Json, n: int) {
    match value
    case JBool(flag) => n == (if flag then 1 else 0)
    case JNumber(number) => number == n as real
    case _ => false
  }

  // ----- `label.strip().lower().replace(" ", "_")`

  function LowerUnderscore(c: char): char {
    if c == ' ' then '_' else if 'A' <= c <= 'Z' then (c as int + 32) as char else c
  }

  function NormalLabel(raw: string): string {
    var stripped := LeftStrip(RightStrip(raw));
    seq(|stripped|, i requires 0 <= i < |stripped| => LowerUnderscore(stripped[i]))
  }

  predicate IsHeading(raw: string, role: Option<string>) {
    NormalLabel(raw) in HEADING_ROLES || (role.Some? && role.value in HEADING_ROLES)
  }

  // ----- the fields of a response

  /** `_layout_string_mapping`. */
  function ReadRelation(value: Json, expected: set<string>): (r: Result<Relation>)
    ensures r.Ok? ==> ValidRelation(r.value, expected)
  {
    if !value.JObject? || value.fields.Keys != expected then Err("keys do not match page blocks")
    else if exists id | id in expected :: !NullableString(value.fields[id]) then Err("value is invalid")
    else Ok(map id | id in expected :: if value.fields[id].JNull? then None else Some(value.fields[id].text))
  }

  predicate NullableString(item: Json) {
    item.JNull? || (item.JString? && 1 <= |item.text| <= 512)
  }

  /** `_layout_heading_ids`. */
  function ReadHeadings(value: Json, expected: set<string>): (r: Result<map<string, seq<string>>>)
    ensures r.Ok? ==> r.value.Keys == expected
    ensures r.Ok? ==> forall id | id in r.value :: |r.value[id]| <= 16 && Distinct(r.value[id])
    ensures r.Ok? ==> forall id, h | id in r.value && h in r.value[id] :: h in expected
  {
    if !value.JObject? || value.fields.Keys != expected then Err("section heading keys do not match page blocks")
    else if exists id | id in expected ::
      !HeadingIds(value.fields[id], expected) then Err("section heading IDs are invalid")
    else
      var read := map id | id in expected :: Texts(value.fields[id].items);
      assert forall id | id in read :: HeadingIds(value.fields[id], expected);
      assert forall id | id in read :: Distinct(read[id]) by {
        forall id | id in read { DistinctCount(read[id]); }
      }
      Ok(read)
  }

  predicate HeadingIds(raw: Json, expected: set<string>) {
    && raw.JArray?
    && |raw.items| <= 16
    && (forall i | 0 <= i < |raw.items| :: raw.items[i].JString?)
    && |Elements(Texts(raw.items))| == |raw.items|
    && forall id | id in Texts(raw.items) :: id != "" && id in expected
  }

  function Texts(items: seq<Json>): (r: seq<string>)
    requires forall i | 0 <= i < |items| :: items[i].JString?
    ensures |r| == |items|
  {
    seq(|items|, i requires 0 <= i < |items| => items[i].text)
  }

  /** References to blocks that neither Docling nor the model calls a heading are dropped. */
  function SupportedHeadings(headings: map<string, seq<string>>, labels: map<string, string>, role: Relation)
    : map<string, seq<string>>
    requires forall id, h | id in headings && h in headings[id] :: h in labels && h in role
  {
    map id | id in headings ::
      Filter(headings[id], h => h in labels && h in role && IsHeading(labels[h], role[h]))
  }

  datatype Fields = Fields(
    parent: Relation, group: Relation, role: Relation, excluded: Relation, headings: map<string, seq<string>>)

  function ReadFields(response: map<string, Json>, expected: set<string>): (r: Result<Fields>)
    requires response.Keys == RESPONSE_FIELDS
    ensures r.Ok? ==> FieldsShaped(r.value, expected)
  {
    var parent := ReadRelation(response["parent_by_block"], expected);
    var group := ReadRelation(response["group_by_block"], expected);
    var role := ReadRelation(response["role_by_block"], expected);
    var excluded := ReadRelation(response["excluded_reason_by_block"], expected);
    var headings := ReadHeadings(response["section_heading_ids_by_block"], expected);
    if parent.Err? || group.Err? || role.Err? || excluded.Err? || headings.Err? then Err("a mapping is malformed")
    else Ok(Fields(parent.value, group.value, role.value, excluded.value, headings.value))
  }

  predicate FieldsShaped(f: Fields, expected: set<string>) {
    && ValidRelation(f.parent, expected) && ValidRelation(f.group, expected)
    && ValidRelation(f.role, expected) && ValidRelation(f.excluded, expected)
    && f.headings.Keys == expected
    && forall id {:trigger f.headings[id]} | id in f.headings :: forall h | h in f.headings[id] :: h in expected
  }

  /** The cross-field checks: page-local targets, no self parent, closed vocabularies. */
  function FieldsFault(f: Fields, expected: set<string>, labels: map<string, string>, allowExclusions: bool)
    : (fault: Option<string>)
    ensures fault.None? ==> labels.Keys == expected && TargetsIn(f.parent, expected)
    ensures fault.None? && !allowExclusions ==> forall id | id in f.excluded :: f.excluded[id] == None
  {
    if !TargetsIn(f.parent, expected) then Some("parent references a foreign block")
    else if !TargetsIn(f.group, expected) then Some("group references a foreign block")
    else if exists id | id in f.parent :: f.parent[id] == Some(id) then Some("parent cannot reference itself")
    else if !TargetsIn(f.role, LAYOUT_ROLES) then Some("role is unsupported")
    else if labels.Keys != expected then Some("raw heading labels do not match page blocks")
    else if !TargetsIn(f.excluded, EXCLUSION_REASONS) then Some("exclusion reason is unsupported")
    else if !allowExclusions && exists id | id in f.excluded :: f.excluded[id].Some? then Some("exclusion is disabled")
    else None
  }

  /** `ordered_block_ids` must list the page's blocks, each once. */
  function ReadOrder(rawOrder: Json, expectedIds: seq<string>): (r: Result<seq<string>>)
    ensures r.Ok? ==> Elements(r.value) == Elements(expectedIds) && |r.value| == |expectedIds|
  {
    if !rawOrder.JArray? || exists i | 0 <= i < |rawOrder.items| :: !rawOrder.items[i].JString? then
      Err("block order is invalid")
    else
      var order := Texts(rawOrder.items);
      if |order| != |expectedIds| || |Elements(order)| != |order| || Elements(order) != Elements(expectedIds) then
        Err("not an exact permutation of page-local block IDs")
      else Ok(order)
  }

  /** Everything `_parse_layout_patch` reads and checks, except the cycle walk and the
      `LayoutPatch` constructor that follow. */
  function ReadResponse(
    response: map<string, Json>, pageNo: int, expectedIds: seq<string>, labels: map<string, string>,
    fingerprint: string, allowExclusions: bool): (r: Result<LayoutPatch>)
    ensures r.Ok? ==> ResponseShape(r.value, pageNo, expectedIds, labels, fingerprint, allowExclusions)
  {
    var expected := Elements(expectedIds);
    if response.Keys != RESPONSE_FIELDS || !EqualsInt(response["page_no"], pageNo) then
      Err("response fields or page number do not match")
    else
      var order := ReadOrder(response["ordered_block_ids"], expectedIds);
      var fields := ReadFields(response, expected);
      if order.Err? then Err(order.error)
      else if fields.Err? then Err(fields.error)
      else
        var f := fields.value;
        var fault := FieldsFault(f, expected, labels, allowExclusions);
        if fault.Some? then Err(fault.value)
        else
          var headings := SupportedHeadings(f.headings, labels, f.role);
          Ok(LayoutPatch(pageNo, order.value, f.parent, headings, f.role, f.group, f.excluded, fingerprint))
  }

  predicate ResponseShape(
    patch: LayoutPatch, pageNo: int, expectedIds: seq<string>, labels: map<string, string>,
    fingerprint: string, allowExclusions: bool)
  {
    && patch.pageNo == pageNo && patch.fingerprint == fingerprint
    && Elements(patch.order) == Elements(expectedIds) == labels.Keys
    && |patch.order| == |expectedIds|
    && patch.parent.Keys == Elements(expectedIds) && TargetsIn(patch.parent, Elements(expectedIds))
    && HeadingsSupported(patch, labels)
    && (!allowExclusions ==> NothingExcluded(patch))
  }

  /** Every section reference of the patch names a block that Docling or the model calls a heading. */
  predicate HeadingsSupported(patch: LayoutPatch, labels: map<string, string>) {
    forall id {:trigger patch.headings[id]} | id in patch.headings :: forall h | h in patch.headings[id] ::
      h in labels && h in patch.role && IsHeading(labels[h], patch.role[h])
  }

  predicate NothingExcluded(patch: LayoutPatch) {
    forall id {:trigger patch.excluded[id]} | id in patch.excluded :: patch.excluded[id] == None
  }

  /** What `_parse_layout_patch` returns. */
  ghost function ParsedPatch(
    response: map<string, Json>, pageNo: int, expectedIds: seq<string>, labels: map<string, string>,
    fingerprint: string, allowExclusions: bool): Result<LayoutPatch>
  {
    var read := ReadResponse(response, pageNo, expectedIds, labels, fingerprint, allowExclusions);
    if read.Err? then read
    else if !Acyclic(read.value.parent) then Err("parent relationships contain a cycle")
    else if !ValidPatch(read.value) then Err("response violated its patch contract")
    else read
  }

  method ParseLayoutPatch(
    response: map<string, Json>, pageNo: int, expectedIds: seq<string>, labels: map<string, string>,
    fingerprint: string, allowExclusions: bool) returns (r: Result<LayoutPatch>)
    ensures r == ParsedPatch(response, pageNo, expectedIds, labels, fingerprint, allowExclusions)
  {
    var read := ReadResponse(response, pageNo, expectedIds, labels, fingerprint, allowExclusions);
    if read.Err? { return read; }
    var acyclic := VerifyParentCycles(read.value.parent);
    if !acyclic { return Err("parent relationships contain a cycle"); }
    if !ValidPatch(read.value) { return Err("response violated its patch contract"); }
    return read;
  }

  /** An accepted response is a valid, acyclic, exact permutation of the page whose section
      references are all headings; with exclusions off it excludes nothing. */
  lemma AcceptedResponse(
    response: map<string, Json>, pageNo: int, expectedIds: seq<string>, labels: map<string, string>,
    fingerprint: string, allowExclusions: bool)
    requires ParsedPatch(response, pageNo, expectedIds, labels, fingerprint, allowExclusions).Ok?
    ensures var patch := ParsedPatch(response, pageNo, expectedIds, labels, fingerprint, allowExclusions).value;
      && ValidPatch(patch) && Acyclic(patch.parent)
      && ResponseShape(patch, pageNo, expectedIds, labels, fingerprint, allowExclusions)
  {
  }
}
