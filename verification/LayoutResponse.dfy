/** What an accepted model response says, read off its JSON: an independent definition of the patch that
    `_parse_layout_patch` returns, and the proof that it returns exactly that patch. */
module LayoutResponse {
  import opened Common
  import opened Text
  import opened Layout
  import opened LayoutParse

  // ----- what the fields say

  /** The array lists these IDs, in this order. */
  predicate SaysOrder(value: Json, order: seq<string>) {
    && value.JArray? && |value.items| == |order|
    && forall i | 0 <= i < |order| :: value.items[i] == JString(order[i])
  }

  /** JSON null for no value, else the text itself. */
  predicate SaysText(value: Json, said: Option<string>) {
    match said
    case None => value == JNull
    case Some(text) => value == JString(text) && 1 <= |text| <= 512
  }

  predicate SaysRelation(value: Json, ids: set<string>, relation: Relation) {
    && value.JObject? && value.fields.Keys == ids && relation.Keys == ids
    && forall id | id in ids :: SaysText(value.fields[id], relation[id])
  }

  /** Equal up to ASCII case, a space standing for an underscore. */
  predicate SameLetter(c: char, letter: char) {
    || (letter == '_' && (c == ' ' || c == '_'))
    || ('a' <= letter <= 'z' && (c == letter || c as int + 32 == letter as int))
  }

  /** Between whitespace, positions `a` to `b` of the label spell the name. */
  predicate SpellsAt(raw: string, name: string, a: nat, b: nat) {
    && a <= b <= |raw| && b - a == |name|
    && Blank(raw[..a]) && Blank(raw[b..])
    && forall i | 0 <= i < |name| :: SameLetter(raw[a + i], name[i])
  }

  ghost predicate Spells(raw: string, name: string) {
    exists a: nat, b: nat :: SpellsAt(raw, name, a, b)
  }

  /** Docling's label or the model's role calls the block a heading. */
  ghost predicate Heads(raw: string, role: Option<string>) {
    || Spells(raw, "title") || Spells(raw, "section_header")
    || role == Some("title") || role == Some("section_header")
  }

  /** At most 16 different IDs of the page. */
  predicate HeadingList(items: seq<Json>, ids: set<string>) {
    && |items| <= 16
    && (forall i | 0 <= i < |items| :: items[i].JString? && items[i].text != "" && items[i].text in ids)
    && forall i, j | 0 <= i < j < |items| :: items[i] != items[j]
  }

  /** `kept` are the entries in order, without those that are not headings. */
  ghost predicate Kept(items: seq<Json>, labels: map<string, string>, role: Relation, kept: seq<string>) {
    if items == [] then kept == []
    else
      var h := items[0];
      && h.JString? && h.text in labels && h.text in role
      && if Heads(labels[h.text], role[h.text])
         then kept != [] && kept[0] == h.text && Kept(items[1..], labels, role, kept[1..])
         else Kept(items[1..], labels, role, kept)
  }

  ghost predicate SaysHeadings(
    value: Json, ids: set<string>, labels: map<string, string>, role: Relation, headings: map<string, seq<string>>)
  {
    && value.JObject? && value.fields.Keys == ids && headings.Keys == ids
    && forall id | id in ids ::
      && value.fields[id].JArray? && HeadingList(value.fields[id].items, ids)
      && Kept(value.fields[id].items, labels, role, headings[id])
  }

  /** The number is the page's; Python's `True` is the number 1. */
  predicate SaysPage(value: Json, pageNo: int) {
    value == JNumber(pageNo as real) || (pageNo == 1 && value == JBool(true)) || (pageNo == 0 && value == JBool(false))
  }

  /** The response says what the patch holds. */
  ghost predicate Says(response: map<string, Json>, ids: set<string>, labels: map<string, string>, p: LayoutPatch) {
    && response.Keys == RESPONSE_FIELDS
    && SaysPage(response["page_no"], p.pageNo)
    && SaysOrder(response["ordered_block_ids"], p.order)
    && SaysRelation(response["parent_by_block"], ids, p.parent)
    && SaysRelation(response["group_by_block"], ids, p.group)
    && SaysRelation(response["role_by_block"], ids, p.role)
    && SaysRelation(response["excluded_reason_by_block"], ids, p.excluded)
    && SaysHeadings(response["section_heading_ids_by_block"], ids, labels, p.role, p.headings)
  }

  /** The response describes this patch of this page, and the patch may be used. */
  ghost predicate Describes(
    response: map<string, Json>, pageNo: int, expectedIds: seq<string>, labels: map<string, string>,
    fingerprint: string, allowExclusions: bool, p: LayoutPatch)
  {
    && p.pageNo == pageNo && p.fingerprint == fingerprint
    && Says(response, Elements(expectedIds), labels, p)
    && |p.order| == |expectedIds| && Elements(p.order) == Elements(expectedIds) == labels.Keys
    && ValidPatch(p) && Acyclic(p.parent)
    && (!allowExclusions ==> NothingExcluded(p))
  }

  // ----- the order and the relations

  lemma OrderSaid(value: Json, expectedIds: seq<string>, order: seq<string>)
    ensures ReadOrder(value, expectedIds) == Ok(order) <==>
      && SaysOrder(value, order) && |order| == |expectedIds| && Distinct(order)
      && Elements(order) == Elements(expectedIds)
  {
    DistinctCount(order);
    if SaysOrder(value, order) { assert Texts(value.items) == order; }
  }

  lemma RelationSaid(value: Json, ids: set<string>, relation: Relation)
    ensures ReadRelation(value, ids) == Ok(relation) <==> SaysRelation(value, ids, relation)
  {
    if SaysRelation(value, ids, relation) {
      forall id | id in ids ensures NullableString(value.fields[id]) {
        assert SaysText(value.fields[id], relation[id]);
      }
      var read := ReadRelation(value, ids).value;
      assert read.Keys == relation.Keys;
      forall id | id in ids ensures read[id] == relation[id] { assert SaysText(value.fields[id], relation[id]); }
      assert read == relation;
    }
    if ReadRelation(value, ids) == Ok(relation) {
      forall id | id in ids ensures SaysText(value.fields[id], relation[id]) {
        assert NullableString(value.fields[id]);
      }
    }
  }

  // ----- headings

  lemma {:induction false} LeftStripped(s: string)
    ensures exists a: nat :: a <= |s| && LeftStrip(s) == s[a..] && Blank(s[..a])
  {
    if s != [] && IsSpace(s[0]) {
      LeftStripped(s[1..]);
      var a: nat :| a <= |s[1..]| && LeftStrip(s[1..]) == s[1..][a..] && Blank(s[1..][..a]);
      assert s[1..][a..] == s[a + 1..];
      assert s[..a + 1] == [s[0]] + s[1..][..a];
    } else {
      assert s[0..] == s && Blank(s[..0]);
    }
  }

  lemma {:induction false} LeftStripOf(s: string, a: nat)
    requires a < |s| && Blank(s[..a]) && !IsSpace(s[a])
    ensures LeftStrip(s) == s[a..]
  {
    if a > 0 {
      assert s[..a][0] == s[0];
      assert s[..a] == [s[0]] + s[1..][..a - 1];
      BlankTail(s[..a]);
      LeftStripOf(s[1..], a - 1);
      assert s[1..][a - 1..] == s[a..];
    }
  }

  lemma {:induction false} RightStripOf(s: string, b: nat)
    requires 0 < b <= |s| && Blank(s[b..]) && !IsSpace(s[b - 1])
    ensures RightStrip(s) == s[..b]
  {
    if b < |s| {
      assert s[b..][|s| - 1 - b] == s[|s| - 1];
      var t := s[..|s| - 1];
      forall i | 0 <= i < |t[b..]| ensures IsSpace(t[b..][i]) { assert t[b..][i] == s[b..][i]; }
      RightStripOf(t, b);
      assert t[..b] == s[..b];
    } else {
      assert s[..b] == s;
    }
  }

  lemma LetterSame(c: char, letter: char)
    requires letter == '_' || 'a' <= letter <= 'z'
    ensures LowerUnderscore(c) == letter <==> SameLetter(c, letter)
  {
  }

  /** Letters and underscores, at least one, a letter at either end. */
  predicate IsName(name: string) {
    && name != [] && name[0] != '_' && name[|name| - 1] != '_'
    && forall i | 0 <= i < |name| :: name[i] == '_' || 'a' <= name[i] <= 'z'
  }

  lemma NormalSpelled(raw: string, name: string)
    requires IsName(name) && NormalLabel(raw) == name
    ensures Spells(raw, name)
  {
    var right := RightStrip(raw);
    LeftStripped(right);
    var a: nat :| a <= |right| && LeftStrip(right) == right[a..] && Blank(right[..a]);
    assert raw[..a] == right[..a];
    forall i | 0 <= i < |name| ensures SameLetter(raw[a + i], name[i]) {
      assert NormalLabel(raw)[i] == LowerUnderscore(right[a..][i]) && right[a..][i] == raw[a + i];
      LetterSame(raw[a + i], name[i]);
    }
    assert SpellsAt(raw, name, a, |right|);
  }

  lemma SpelledNormal(raw: string, name: string, a: nat, b: nat)
    requires IsName(name) && SpellsAt(raw, name, a, b)
    ensures NormalLabel(raw) == name
  {
    assert SameLetter(raw[a + 0], name[0]) && SameLetter(raw[a + (|name| - 1)], name[|name| - 1]);
    RightStripOf(raw, b);
    assert raw[..b][..a] == raw[..a];
    LeftStripOf(raw[..b], a);
    forall i | 0 <= i < |name| ensures NormalLabel(raw)[i] == name[i] {
      assert raw[..b][a..][i] == raw[a + i];
      LetterSame(raw[a + i], name[i]);
    }
    assert NormalLabel(raw) == name;
  }

  lemma NormalMeaning(raw: string, name: string)
    requires IsName(name)
    ensures NormalLabel(raw) == name <==> Spells(raw, name)
  {
    if NormalLabel(raw) == name { NormalSpelled(raw, name); }
    if a: nat, b: nat :| SpellsAt(raw, name, a, b) { SpelledNormal(raw, name, a, b); }
  }

  lemma HeadingMeaning(raw: string, role: Option<string>)
    ensures IsHeading(raw, role) <==> Heads(raw, role)
  {
    NormalMeaning(raw, "title");
    NormalMeaning(raw, "section_header");
  }

  ghost function Supported(labels: map<string, string>, role: Relation): string -> bool {
    h => h in labels && h in role && IsHeading(labels[h], role[h])
  }

  ghost predicate Known(items: seq<Json>, labels: map<string, string>, role: Relation) {
    forall i | 0 <= i < |items| :: items[i].JString? && items[i].text in labels && items[i].text in role
  }

  lemma {:induction false} KeptMeaning(
    items: seq<Json>, labels: map<string, string>, role: Relation, kept: seq<string>)
    requires Known(items, labels, role)
    ensures Kept(items, labels, role, kept) <==> kept == Filter(Texts(items), Supported(labels, role))
  {
    if items != [] {
      var h := items[0].text;
      assert Texts(items)[0] == h && Texts(items)[1..] == Texts(items[1..]);
      HeadingMeaning(labels[h], role[h]);
      if Heads(labels[h], role[h]) {
        if kept != [] { KeptMeaning(items[1..], labels, role, kept[1..]); }
        assert kept != [] ==> kept == [kept[0]] + kept[1..];
      } else {
        KeptMeaning(items[1..], labels, role, kept);
      }
    }
  }

  lemma HeadingListSame(value: Json, ids: set<string>)
    ensures HeadingIds(value, ids) <==> value.JArray? && HeadingList(value.items, ids)
  {
    if value.JArray? && forall i | 0 <= i < |value.items| :: value.items[i].JString? {
      var texts := Texts(value.items);
      DistinctCount(texts);
      assert forall i | 0 <= i < |texts| :: texts[i] == value.items[i].text;
      assert HeadingList(value.items, ids) ==> Distinct(texts);
      assert forall i | 0 <= i < |texts| :: texts[i] in texts;
    }
  }

  lemma HeadingsSaid(
    value: Json, ids: set<string>, labels: map<string, string>, role: Relation, headings: map<string, seq<string>>)
    requires labels.Keys == ids == role.Keys
    ensures SaysHeadings(value, ids, labels, role, headings) <==>
      var read := ReadHeadings(value, ids); read.Ok? && headings == SupportedHeadings(read.value, labels, role)
  {
    if value.JObject? && value.fields.Keys == ids {
      forall id | id in ids { HeadingListSame(value.fields[id], ids); }
      if forall id | id in ids :: HeadingIds(value.fields[id], ids) {
        ListsKept(value.fields, ids, labels, role, headings);
      }
    }
  }

  lemma SupportedAt(headings: map<string, seq<string>>, labels: map<string, string>, role: Relation, id: string)
    requires forall id, h | id in headings && h in headings[id] :: h in labels && h in role
    requires id in headings
    ensures SupportedHeadings(headings, labels, role)[id] == Filter(headings[id], Supported(labels, role))
  {
    FilterAgrees(headings[id], h => h in labels && h in role && IsHeading(labels[h], role[h]), Supported(labels, role));
  }

  lemma ListKnown(items: seq<Json>, ids: set<string>, labels: map<string, string>, role: Relation)
    requires labels.Keys == ids == role.Keys && HeadingList(items, ids)
    ensures Known(items, labels, role)
  {
  }

  lemma ListsKept(
    fields: map<string, Json>, ids: set<string>, labels: map<string, string>, role: Relation,
    headings: map<string, seq<string>>)
    requires labels.Keys == ids == role.Keys == fields.Keys
    requires forall id | id in ids :: HeadingIds(fields[id], ids)
    ensures headings == SupportedHeadings(ReadHeadings(JObject(fields), ids).value, labels, role) <==>
      headings.Keys == ids && forall id | id in ids :: Kept(fields[id].items, labels, role, headings[id])
  {
    var read := ReadHeadings(JObject(fields), ids).value;
    var kept := SupportedHeadings(read, labels, role);
    forall id | id in ids && headings.Keys == ids
      ensures Kept(fields[id].items, labels, role, headings[id]) <==> headings[id] == kept[id]
    {
      assert HeadingIds(fields[id], ids);
      HeadingListSame(fields[id], ids);
      ListKnown(fields[id].items, ids, labels, role);
      SupportedAt(read, labels, role, id);
      KeptMeaning(fields[id].items, labels, role, headings[id]);
    }
    assert kept.Keys == ids;
    SameMaps(headings, kept);
  }

  lemma SameMaps(a: map<string, seq<string>>, b: map<string, seq<string>>)
    ensures a == b <==> a.Keys == b.Keys && forall id | id in a :: a[id] == b[id]
  {
  }

  // ----- the whole response

  lemma FieldsSaid(response: map<string, Json>, ids: set<string>, f: LayoutParse.Fields)
    requires response.Keys == RESPONSE_FIELDS
    ensures ReadFields(response, ids) == Ok(f) <==>
      && SaysRelation(response["parent_by_block"], ids, f.parent)
      && SaysRelation(response["group_by_block"], ids, f.group)
      && SaysRelation(response["role_by_block"], ids, f.role)
      && SaysRelation(response["excluded_reason_by_block"], ids, f.excluded)
      && ReadHeadings(response["section_heading_ids_by_block"], ids) == Ok(f.headings)
  {
    RelationSaid(response["parent_by_block"], ids, f.parent);
    RelationSaid(response["group_by_block"], ids, f.group);
    RelationSaid(response["role_by_block"], ids, f.role);
    RelationSaid(response["excluded_reason_by_block"], ids, f.excluded);
  }

  lemma PageSaid(value: Json, pageNo: int)
    ensures EqualsInt(value, pageNo) <==> SaysPage(value, pageNo)
  {
  }

  /** The fields a patch was built from. */
  ghost function FieldsOf(p: LayoutPatch, headings: map<string, seq<string>>): LayoutParse.Fields {
    LayoutParse.Fields(p.parent, p.group, p.role, p.excluded, headings)
  }

  lemma ReadSays(
    response: map<string, Json>, pageNo: int, expectedIds: seq<string>, labels: map<string, string>,
    fingerprint: string, allowExclusions: bool, p: LayoutPatch)
    requires ReadResponse(response, pageNo, expectedIds, labels, fingerprint, allowExclusions) == Ok(p)
    ensures Says(response, Elements(expectedIds), labels, p)
  {
    var ids := Elements(expectedIds);
    var f := ReadFields(response, ids).value;
    PageSaid(response["page_no"], pageNo);
    OrderSaid(response["ordered_block_ids"], expectedIds, p.order);
    FieldsSaid(response, ids, f);
    HeadingsSaid(response["section_heading_ids_by_block"], ids, labels, f.role, p.headings);
  }

  lemma FieldsFaultless(p: LayoutPatch, headings: map<string, seq<string>>, ids: set<string>,
    labels: map<string, string>, allowExclusions: bool)
    requires ValidPatch(p) && Elements(p.order) == ids == labels.Keys && (!allowExclusions ==> NothingExcluded(p))
    ensures FieldsFault(FieldsOf(p, headings), ids, labels, allowExclusions) == None
  {
  }

  lemma SaidOrder(response: map<string, Json>, expectedIds: seq<string>, labels: map<string, string>, p: LayoutPatch)
    requires Says(response, Elements(expectedIds), labels, p) && |Elements(p.order)| == |p.order|
    requires |p.order| == |expectedIds| && Elements(p.order) == Elements(expectedIds)
    ensures ReadOrder(response["ordered_block_ids"], expectedIds) == Ok(p.order)
    ensures EqualsInt(response["page_no"], p.pageNo)
  {
    DistinctCount(p.order);
    OrderSaid(response["ordered_block_ids"], expectedIds, p.order);
    PageSaid(response["page_no"], p.pageNo);
  }

  lemma SaidFields(response: map<string, Json>, ids: set<string>, labels: map<string, string>, p: LayoutPatch)
    returns (headings: map<string, seq<string>>)
    requires Says(response, ids, labels, p) && labels.Keys == ids
    ensures ReadFields(response, ids) == Ok(FieldsOf(p, headings))
    ensures forall id, h | id in headings && h in headings[id] :: h in labels && h in p.role
    ensures p.headings == SupportedHeadings(headings, labels, p.role)
  {
    HeadingsSaid(response["section_heading_ids_by_block"], ids, labels, p.role, p.headings);
    headings := ReadHeadings(response["section_heading_ids_by_block"], ids).value;
    FieldsSaid(response, ids, FieldsOf(p, headings));
  }

  lemma ReadComposes(
    response: map<string, Json>, expectedIds: seq<string>, labels: map<string, string>,
    allowExclusions: bool, p: LayoutPatch, headings: map<string, seq<string>>)
    requires response.Keys == RESPONSE_FIELDS && EqualsInt(response["page_no"], p.pageNo)
    requires ReadOrder(response["ordered_block_ids"], expectedIds) == Ok(p.order)
    requires ReadFields(response, Elements(expectedIds)) == Ok(FieldsOf(p, headings))
    requires FieldsFault(FieldsOf(p, headings), Elements(expectedIds), labels, allowExclusions) == None
    requires forall id, h | id in headings && h in headings[id] :: h in labels && h in p.role
    requires p.headings == SupportedHeadings(headings, labels, p.role)
    ensures ReadResponse(response, p.pageNo, expectedIds, labels, p.fingerprint, allowExclusions) == Ok(p)
  {
  }

  lemma ParsedIsRead(
    response: map<string, Json>, pageNo: int, expectedIds: seq<string>, labels: map<string, string>,
    fingerprint: string, allowExclusions: bool, p: LayoutPatch)
    ensures ParsedPatch(response, pageNo, expectedIds, labels, fingerprint, allowExclusions) == Ok(p) <==>
      && ReadResponse(response, pageNo, expectedIds, labels, fingerprint, allowExclusions) == Ok(p)
      && Acyclic(p.parent) && ValidPatch(p)
  {
  }

  lemma SaidParsed(
    response: map<string, Json>, pageNo: int, expectedIds: seq<string>, labels: map<string, string>,
    fingerprint: string, allowExclusions: bool, p: LayoutPatch)
    requires Describes(response, pageNo, expectedIds, labels, fingerprint, allowExclusions, p)
    ensures ParsedPatch(response, pageNo, expectedIds, labels, fingerprint, allowExclusions) == Ok(p)
  {
    var ids := Elements(expectedIds);
    SaidOrder(response, expectedIds, labels, p);
    var headings := SaidFields(response, ids, labels, p);
    FieldsFaultless(p, headings, ids, labels, allowExclusions);
    ReadComposes(response, expectedIds, labels, allowExclusions, p, headings);
    ParsedIsRead(response, pageNo, expectedIds, labels, fingerprint, allowExclusions, p);
  }

  lemma ReadShape(
    response: map<string, Json>, pageNo: int, expectedIds: seq<string>, labels: map<string, string>,
    fingerprint: string, allowExclusions: bool, p: LayoutPatch)
    requires ReadResponse(response, pageNo, expectedIds, labels, fingerprint, allowExclusions) == Ok(p)
    ensures ResponseShape(p, pageNo, expectedIds, labels, fingerprint, allowExclusions)
  {
  }

  lemma ParsedSays(
    response: map<string, Json>, pageNo: int, expectedIds: seq<string>, labels: map<string, string>,
    fingerprint: string, allowExclusions: bool, p: LayoutPatch)
    requires ParsedPatch(response, pageNo, expectedIds, labels, fingerprint, allowExclusions) == Ok(p)
    ensures Describes(response, pageNo, expectedIds, labels, fingerprint, allowExclusions, p)
  {
    ParsedIsRead(response, pageNo, expectedIds, labels, fingerprint, allowExclusions, p);
    ReadShape(response, pageNo, expectedIds, labels, fingerprint, allowExclusions, p);
    ReadSays(response, pageNo, expectedIds, labels, fingerprint, allowExclusions, p);
  }

  /** The parser returns a patch exactly when the response describes it; so it accepts exactly the
      responses that describe a patch, and returns what they say. */
  lemma ParsedIsDescribed(
    response: map<string, Json>, pageNo: int, expectedIds: seq<string>, labels: map<string, string>,
    fingerprint: string, allowExclusions: bool, p: LayoutPatch)
    ensures ParsedPatch(response, pageNo, expectedIds, labels, fingerprint, allowExclusions) == Ok(p) <==>
            Describes(response, pageNo, expectedIds, labels, fingerprint, allowExclusions, p)
  {
    var parsed := ParsedPatch(response, pageNo, expectedIds, labels, fingerprint, allowExclusions);
    if parsed == Ok(p) {
      ParsedSays(response, pageNo, expectedIds, labels, fingerprint, allowExclusions, p);
    }
    if Describes(response, pageNo, expectedIds, labels, fingerprint, allowExclusions, p) {
      SaidParsed(response, pageNo, expectedIds, labels, fingerprint, allowExclusions, p);
    }
  }
}
