/** What the reading-order hint means on the page (`_layout_geometry_order`, backends.py): headers, then the
    body column by column from the left, then footers, each from the top, then the blocks without a box. */
module GeometryReading {
  import opened Common
  import opened Layout
  import opened LayoutStabilize
  import opened Geometry

  // ----- the box on the page

  /** Office formats and every origin but BOTTOMLEFT count down from the top of the page. */
  predicate CountsDown(office: bool, key: BoxKey) {
    office || key.1.None? || key.1.value != "BOTTOMLEFT"
  }

  /** The item's edges are the box's, with the lesser one left and the upper one on top: where heights
      count up from the bottom, the upper edge is the greater one. */
  lemma VisualMeaning(office: bool, b: Block, key: BoxKey)
    ensures var item, box := Visual(office, b, key), key.0;
      && item.block == b && item.left <= item.right && item.top <= item.bottom
      && ((item.left == box.left && item.right == box.right) || (item.left == box.right && item.right == box.left))
      && (CountsDown(office, key) ==>
            (item.top == box.top && item.bottom == box.bottom) || (item.top == box.bottom && item.bottom == box.top))
      && (!CountsDown(office, key) ==>
            || (item.top == -box.top && item.bottom == -box.bottom)
            || (item.top == -box.bottom && item.bottom == -box.top))
  {
  }

  // ----- the zones

  /** Wide items in the top quarter are headers, wide items in the bottom quarter footers. */
  lemma ZoneMeaning(e: Extent, item: Item)
    ensures var w, h := PageWidth(e), PageHeight(e);
      && w >= 1.0 && w >= e.right - e.left && (w == 1.0 || w == e.right - e.left)
      && h >= 1.0 && h >= e.bottom - e.top && (h == 1.0 || h == e.bottom - e.top)
      && (ZoneOf(e, item) == Header <==>
            10.0 * (item.right - item.left) >= 7.0 * w && 2.0 * (item.top + item.bottom) <= 4.0 * e.top + h)
      && (ZoneOf(e, item) == Footer <==>
            10.0 * (item.right - item.left) >= 7.0 * w && 2.0 * (item.top + item.bottom) >= 4.0 * e.top + 3.0 * h)
  {
  }

  // ----- the order of items

  function Rank(e: Extent, item: Item): nat {
    match ZoneOf(e, item)
    case Header => 0
    case Body => 1
    case Footer => 2
  }

  /** Further up; at one height further left; there with the smaller ordinal. */
  predicate Higher(a: Item, b: Item) {
    if a.top != b.top then a.top < b.top
    else if a.left != b.left then a.left < b.left
    else a.block.ordinal < b.block.ordinal
  }

  ghost predicate InColumns(columns: seq<seq<Item>>, a: Item, b: Item, k: nat, l: nat) {
    k <= l < |columns| && a in columns[k] && b in columns[l] && (k == l ==> !Higher(b, a))
  }

  /** The second item stands in a column no further left, and in one column not higher. */
  ghost predicate ColumnsInTurn(columns: seq<seq<Item>>, a: Item, b: Item) {
    exists k, l :: InColumns(columns, a, b, k, l)
  }

  /** The first item may be read before the second: zone by zone, the body column by column. */
  ghost predicate InTurn(e: Extent, columns: seq<seq<Item>>, a: Item, b: Item) {
    && Rank(e, a) <= Rank(e, b)
    && (Rank(e, a) == Rank(e, b) ==> if ZoneOf(e, a) == Body then ColumnsInTurn(columns, a, b) else !Higher(b, a))
  }

  // ----- each part of the list

  ghost predicate TopDown(items: seq<Item>) {
    forall i, j | 0 <= i < j < |items| :: !Higher(items[j], items[i])
  }

  ghost predicate AllIn(e: Extent, zone: Zone, items: seq<Item>) {
    forall i | 0 <= i < |items| :: ZoneOf(e, items[i]) == zone
  }

  ghost predicate PairsInTurn(columns: seq<seq<Item>>, items: seq<Item>) {
    forall i, j | 0 <= i < j < |items| :: ColumnsInTurn(columns, items[i], items[j])
  }

  ghost predicate SomeColumn(columns: seq<seq<Item>>, a: Item) {
    exists k: nat :: k < |columns| && a in columns[k]
  }

  ghost predicate AllColumned(columns: seq<seq<Item>>, items: seq<Item>) {
    forall i | 0 <= i < |items| :: SomeColumn(columns, items[i])
  }

  lemma VerticalIsHigher(a: Item, b: Item)
    ensures Vertical()(a, b) <==> Higher(a, b)
  {
  }

  lemma SortedTopDown(items: seq<Item>)
    ensures TopDown(Sorted(items, Vertical()))
  {
    OrdersWeak();
    var r := Sorted(items, Vertical());
    SortedAscends(items, Vertical());
    forall i, j | 0 <= i < j < |r| ensures !Higher(r[j], r[i]) { VerticalIsHigher(r[j], r[i]); }
  }

  lemma SortedMembers(items: seq<Item>, less: (Item, Item) -> bool, x: Item)
    ensures x in Sorted(items, less) <==> x in items
  {
    assert x in multiset(Sorted(items, less)) <==> x in multiset(items);
  }

  lemma ColumnAppended(columns: seq<seq<Item>>, left: seq<Item>, last: seq<Item>)
    requires columns != [] && PairsInTurn(columns[..|columns| - 1], left)
    requires AllColumned(columns[..|columns| - 1], left) && TopDown(last)
    requires forall i | 0 <= i < |last| :: last[i] in columns[|columns| - 1]
    ensures PairsInTurn(columns, left + last) && AllColumned(columns, left + last)
  {
    var n := |columns| - 1;
    var all := left + last;
    forall i | 0 <= i < |all| ensures SomeColumn(columns, all[i]) {
      if i < |left| {
        assert SomeColumn(columns[..n], left[i]);
        var k: nat :| k < n && left[i] in columns[..n][k];
        assert columns[k] == columns[..n][k];
      } else {
        assert last[i - |left|] in columns[n];
      }
    }
    forall i, j | 0 <= i < j < |all| ensures ColumnsInTurn(columns, all[i], all[j]) {
      if j < |left| {
        var k, l :| InColumns(columns[..n], left[i], left[j], k, l);
        assert InColumns(columns, all[i], all[j], k, l);
      } else if i < |left| {
        assert SomeColumn(columns[..n], left[i]);
        var k: nat :| k < n && left[i] in columns[..n][k];
        assert InColumns(columns, all[i], all[j], k, n);
      } else {
        assert !Higher(last[j - |left|], last[i - |left|]);
        assert InColumns(columns, all[i], all[j], n, n);
      }
    }
  }

  lemma {:induction false} ColumnsRead(columns: seq<seq<Item>>)
    ensures PairsInTurn(columns, ReadColumns(columns)) && AllColumned(columns, ReadColumns(columns))
  {
    if columns != [] {
      var n := |columns| - 1;
      ColumnsRead(columns[..n]);
      SortedTopDown(columns[n]);
      var last := Sorted(columns[n], Vertical());
      forall i | 0 <= i < |last| ensures last[i] in columns[n] { SortedMembers(columns[n], Vertical(), last[i]); }
      ColumnAppended(columns, ReadColumns(columns[..n]), last);
    }
  }

  lemma ColumnZone(items: seq<Item>, e: Extent, columns: seq<seq<Item>>)
    requires BodyColumns(items, e, columns)
    ensures AllIn(e, Body, ReadColumns(columns))
  {
    ColumnsRead(columns);
    var r := ReadColumns(columns);
    forall i | 0 <= i < |r| ensures ZoneOf(e, r[i]) == Body {
      assert SomeColumn(columns, r[i]);
      var k: nat :| k < |columns| && r[i] in columns[k];
      FlattenMember(columns, r[i]);
      InBodyZone(items, e, r[i]);
    }
  }

  lemma InBodyZone(items: seq<Item>, e: Extent, x: Item)
    requires x in Sorted(Filter(items, InZone(e, Body)), LeftToRight())
    ensures ZoneOf(e, x) == Body
  {
    SortedMembers(Filter(items, InZone(e, Body)), LeftToRight(), x);
    FilterKeeps(items, InZone(e, Body), x);
  }

  function ZonePart(items: seq<Item>, e: Extent, zone: Zone): seq<Item> {
    Sorted(Filter(items, InZone(e, zone)), Vertical())
  }

  lemma ZonePartRead(items: seq<Item>, e: Extent, zone: Zone)
    ensures TopDown(ZonePart(items, e, zone)) && AllIn(e, zone, ZonePart(items, e, zone))
  {
    var kept := Filter(items, InZone(e, zone));
    var r := ZonePart(items, e, zone);
    SortedTopDown(kept);
    forall i | 0 <= i < |r| ensures ZoneOf(e, r[i]) == zone {
      SortedMembers(kept, Vertical(), r[i]);
      FilterKeeps(items, InZone(e, zone), r[i]);
    }
  }

  /** The columns hold exactly the body; a block joins the column before it while its centre lies at most
      a quarter of the page width right of that column's mean, else it opens the next one. */
  lemma ColumnsMeaning(items: seq<Item>, e: Extent, columns: seq<seq<Item>>)
    requires BodyColumns(items, e, columns)
    ensures forall x :: (exists k: nat :: k < |columns| && x in columns[k]) <==> x in items && ZoneOf(e, x) == Body
    ensures forall k | 0 <= k < |columns| :: columns[k] != [] && Near(columns[k], PageWidth(e))
    ensures forall k | 0 < k < |columns| :: 4.0 * (CenterX(columns[k][0]) - Mean(columns[k - 1])) > PageWidth(e)
  {
    var body := Filter(items, InZone(e, Body));
    forall x ensures SomeColumn(columns, x) <==> x in items && ZoneOf(e, x) == Body {
      FlattenMember(columns, x);
      SortedMembers(body, LeftToRight(), x);
      FilterKeeps(items, InZone(e, Body), x);
    }
    forall k | 0 <= k < |columns| ensures columns[k] != [] && Near(columns[k], PageWidth(e)) {
      assert Tight(columns[k], PageWidth(e) * 0.25);
    }
  }

  /** Every later member's centre lies at most a quarter of the width right of the mean before it. */
  ghost predicate Near(column: seq<Item>, width: real) {
    forall j | 0 < j < |column| :: 4.0 * (CenterX(column[j]) - Mean(column[..j])) <= width
  }

  lemma {:induction false} FlattenMember(columns: seq<seq<Item>>, x: Item)
    ensures x in Flatten(columns) <==> SomeColumn(columns, x)
  {
    if columns != [] {
      var n := |columns| - 1;
      FlattenMember(columns[..n], x);
      if SomeColumn(columns, x) {
        var k: nat :| k < |columns| && x in columns[k];
        assert k < n ==> x in columns[..n][k];
      }
      if SomeColumn(columns[..n], x) {
        var k: nat :| k < n && x in columns[..n][k];
        assert x in columns[k];
      }
    }
  }

  // ----- the whole list

  lemma PartsInTurn(
    e: Extent, columns: seq<seq<Item>>, headers: seq<Item>, body: seq<Item>, footers: seq<Item>, i: nat, j: nat)
    requires TopDown(headers) && AllIn(e, Header, headers) && TopDown(footers) && AllIn(e, Footer, footers)
    requires PairsInTurn(columns, body) && AllIn(e, Body, body)
    requires i < j < |headers + body + footers|
    ensures var r := headers + body + footers; InTurn(e, columns, r[i], r[j])
  {
    var h, c := |headers|, |body|;
    var p := if i < h then 0 else if i < h + c then 1 else 2;
    var q := if j < h then 0 else if j < h + c then 1 else 2;
    PartIsZone(e, headers, body, footers, i);
    PartIsZone(e, headers, body, footers, j);
    if p == 1 && q == 1 {
      assert ColumnsInTurn(columns, body[i - h], body[j - h]);
    } else if p == q == 0 {
      assert !Higher(headers[j], headers[i]);
    } else if p == q {
      assert !Higher(footers[j - h - c], footers[i - h - c]);
    }
  }

  lemma PartIsZone(e: Extent, headers: seq<Item>, body: seq<Item>, footers: seq<Item>, i: nat)
    requires AllIn(e, Header, headers) && AllIn(e, Body, body) && AllIn(e, Footer, footers)
    requires i < |headers + body + footers|
    ensures var r, h, c := headers + body + footers, |headers|, |body|;
      && ZoneOf(e, r[i]) == (if i < h then Header else if i < h + c then Body else Footer)
      && r[i] == (if i < h then headers[i] else if i < h + c then body[i - h] else footers[i - h - c])
  {
  }

  /** Every item of the list may be read before every later one. */
  ghost predicate ListInTurn(e: Extent, columns: seq<seq<Item>>, r: seq<Item>) {
    forall i, j | 0 <= i < j < |r| :: InTurn(e, columns, r[i], r[j])
  }

  lemma ListParts(
    e: Extent, columns: seq<seq<Item>>, headers: seq<Item>, body: seq<Item>, footers: seq<Item>)
    requires TopDown(headers) && AllIn(e, Header, headers) && TopDown(footers) && AllIn(e, Footer, footers)
    requires PairsInTurn(columns, body) && AllIn(e, Body, body)
    ensures ListInTurn(e, columns, headers + body + footers)
  {
    var r := headers + body + footers;
    forall i, j | 0 <= i < j < |r| ensures InTurn(e, columns, r[i], r[j]) {
      PartsInTurn(e, columns, headers, body, footers, i, j);
    }
  }

  lemma ZonesInTurn(items: seq<Item>, e: Extent, columns: seq<seq<Item>>)
    requires BodyColumns(items, e, columns)
    ensures ListInTurn(e, columns, ReadZones(items, e, columns))
  {
    ZonePartRead(items, e, Header);
    ZonePartRead(items, e, Footer);
    ColumnsRead(columns);
    ColumnZone(items, e, columns);
    ListParts(e, columns, ZonePart(items, e, Header), ReadColumns(columns), ZonePart(items, e, Footer));
  }

  // ----- the order of blocks

  /** The block's item, its edges as `VisualMeaning` says. */
  function ItemOf(office: bool, pageNo: int, b: Block): Item
    requires BoxOf(b, pageNo).Some?
  {
    Visual(office, b, BoxOf(b, pageNo).value)
  }

  /** Drawn blocks come first, in the order of their zones; blocks without a box follow by ordinal. */
  ghost predicate ReadBefore(
    office: bool, pageNo: int, e: Extent, columns: seq<seq<Item>>, a: Block, b: Block)
  {
    match (BoxOf(a, pageNo), BoxOf(b, pageNo))
    case (None, _) => BoxOf(b, pageNo) == None && a.ordinal <= b.ordinal
    case (Some(_), None) => true
    case (Some(_), Some(_)) => InTurn(e, columns, ItemOf(office, pageNo, a), ItemOf(office, pageNo, b))
  }

  lemma {:induction false} BoxedItem(office: bool, blocks: seq<Block>, pageNo: int, item: Item)
    requires item in Boxed(office, blocks, pageNo)
    ensures item.block in blocks && BoxOf(item.block, pageNo).Some? && item == ItemOf(office, pageNo, item.block)
  {
    var rest := Boxed(office, blocks[1..], pageNo);
    if item in rest { BoxedItem(office, blocks[1..], pageNo, item); }
  }

  /** The drawn blocks of the hint: those of the items, in the items' order. */
  ghost predicate Draws(office: bool, pageNo: int, drawn: seq<Block>, r: seq<Item>) {
    && |drawn| == |r|
    && forall i | 0 <= i < |drawn| :: BoxOf(drawn[i], pageNo).Some? && r[i] == ItemOf(office, pageNo, drawn[i])
  }

  lemma ItemsDraw(office: bool, blocks: seq<Block>, pageNo: int, r: seq<Item>)
    requires multiset(r) == multiset(Boxed(office, blocks, pageNo))
    ensures Draws(office, pageNo, Blocks(r), r)
  {
    forall i | 0 <= i < |r| ensures BoxOf(r[i].block, pageNo).Some? && r[i] == ItemOf(office, pageNo, r[i].block) {
      assert r[i] in multiset(r);
      BoxedItem(office, blocks, pageNo, r[i]);
    }
  }

  ghost predicate Undrawn(pageNo: int, rest: seq<Block>) {
    && (forall i | 0 <= i < |rest| :: BoxOf(rest[i], pageNo) == None)
    && forall i, j | 0 <= i < j < |rest| :: rest[i].ordinal <= rest[j].ordinal
  }

  lemma BoxlessUndrawn(blocks: seq<Block>, pageNo: int)
    ensures Undrawn(pageNo, Sorted(Filter(blocks, Boxless(pageNo)), ByOrdinal()))
  {
    var kept := Filter(blocks, Boxless(pageNo));
    var rest := Sorted(kept, ByOrdinal());
    OrdersWeak();
    SortedAscends(kept, ByOrdinal());
    forall i | 0 <= i < |rest| ensures BoxOf(rest[i], pageNo) == None {
      assert rest[i] in multiset(rest);
      FilterKeeps(blocks, Boxless(pageNo), rest[i]);
    }
    forall i, j | 0 <= i < j < |rest| ensures rest[i].ordinal <= rest[j].ordinal {
      assert !ByOrdinal()(rest[j], rest[i]);
    }
  }

  lemma PlacesInTurn(
    office: bool, pageNo: int, e: Extent, columns: seq<seq<Item>>, r: seq<Item>, drawn: seq<Block>, rest: seq<Block>,
    i: nat, j: nat)
    requires ListInTurn(e, columns, r) && Draws(office, pageNo, drawn, r) && Undrawn(pageNo, rest)
    requires i < j < |drawn + rest|
    ensures var all := drawn + rest; ReadBefore(office, pageNo, e, columns, all[i], all[j])
  {
    var n := |drawn|;
    if j < n {
      assert InTurn(e, columns, r[i], r[j]);
    } else if n <= i {
      assert rest[i - n].ordinal <= rest[j - n].ordinal;
    } else {
      assert BoxOf(drawn[i], pageNo).Some? && BoxOf(rest[j - n], pageNo) == None;
    }
  }

  /** Every block of the list is read before every later one. */
  ghost predicate AllReadBefore(
    office: bool, pageNo: int, e: Extent, columns: seq<seq<Item>>, ordered: seq<Block>)
  {
    forall i, j | 0 <= i < j < |ordered| :: ReadBefore(office, pageNo, e, columns, ordered[i], ordered[j])
  }

  lemma AllPlaces(
    office: bool, pageNo: int, e: Extent, columns: seq<seq<Item>>, r: seq<Item>, drawn: seq<Block>, rest: seq<Block>)
    requires ListInTurn(e, columns, r) && Draws(office, pageNo, drawn, r) && Undrawn(pageNo, rest)
    ensures AllReadBefore(office, pageNo, e, columns, drawn + rest)
  {
    forall i, j | 0 <= i < j < |drawn + rest|
      ensures ReadBefore(office, pageNo, e, columns, (drawn + rest)[i], (drawn + rest)[j])
    {
      PlacesInTurn(office, pageNo, e, columns, r, drawn, rest, i, j);
    }
  }

  /** In the hint every block is read in turn with every later one; the columns are the body's, from left
      to right. */
  lemma GeometryReads(office: bool, blocks: seq<Block>, pageNo: int, ordered: seq<Block>)
    returns (columns: seq<seq<Item>>)
    requires IsGeometryOrder(office, blocks, pageNo, ordered) && Boxed(office, blocks, pageNo) != []
    ensures var items := Boxed(office, blocks, pageNo);
      && BodyColumns(items, Spanned(items), columns)
      && AllReadBefore(office, pageNo, Spanned(items), columns, ordered)
  {
    var items := Boxed(office, blocks, pageNo);
    var e := Spanned(items);
    columns :| BodyColumns(items, e, columns) &&
      ordered == Blocks(ReadZones(items, e, columns)) + Sorted(Filter(blocks, Boxless(pageNo)), ByOrdinal());
    var r := ReadZones(items, e, columns);
    ZonesPermuted(items, e, columns);
    ItemsDraw(office, blocks, pageNo, r);
    BoxlessUndrawn(blocks, pageNo);
    ZonesInTurn(items, e, columns);
    AllPlaces(office, pageNo, e, columns, r, Blocks(r), Sorted(Filter(blocks, Boxless(pageNo)), ByOrdinal()));
  }

  lemma ZonesPermuted(items: seq<Item>, e: Extent, columns: seq<seq<Item>>)
    requires BodyColumns(items, e, columns)
    ensures multiset(ReadZones(items, e, columns)) == multiset(items)
  {
    ReadColumnsPermutes(columns);
    ZonesPartition(items, e);
  }
}
