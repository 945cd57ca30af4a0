/** The deterministic reading-order hint built from block boxes
    (`_layout_geometry_order`, backends.py). Coordinates are reals. */
module Geometry {
  import opened Common
  import opened Layout
  import opened LayoutStabilize

  datatype Item = Item(block: Block, left: real, top: real, right: real, bottom: real)

  function Min(a: real, b: real): real { if a <= b then a else b }
  function Max(a: real, b: real): real { if a >= b then a else b }

  /** A block's box in visual coordinates: top grows downwards. */
  function Visual(office: bool, b: Block, key: BoxKey): Item {
    var box := key.0;
    var upright := office || key.1 != Some("BOTTOMLEFT");
    Item(b, Min(box.left, box.right),
         if upright then Min(box.top, box.bottom) else -Max(box.top, box.bottom),
         Max(box.left, box.right),
         if upright then Max(box.top, box.bottom) else -Min(box.top, box.bottom))
  }

  function Boxed(office: bool, blocks: seq<Block>, pageNo: int): seq<Item> {
    if blocks == [] then []
    else
      var rest := Boxed(office, blocks[1..], pageNo);
      var key := BoxOf(blocks[0], pageNo);
      if key.None? then rest else [Visual(office, blocks[0], key.value)] + rest
  }

  function Boxless(pageNo: int): Block -> bool {
    b => BoxOf(b, pageNo).None?
  }

  function Blocks(items: seq<Item>): seq<Block> {
    Map(items, (item: Item) => item.block)
  }

  lemma {:induction false} BoxedSnoc(office: bool, blocks: seq<Block>, b: Block, pageNo: int)
    ensures Boxed(office, blocks + [b], pageNo) == Boxed(office, blocks, pageNo) +
      if BoxOf(b, pageNo).None? then [] else [Visual(office, b, BoxOf(b, pageNo).value)]
  {
    if blocks != [] {
      BoxedSnoc(office, blocks[1..], b, pageNo);
      assert (blocks + [b])[1..] == blocks[1..] + [b];
    }
  }

  // ----- zones

  datatype Extent = Extent(left: real, top: real, right: real, bottom: real)

  /** The box spanned by all boxes. */
  function Spanned(items: seq<Item>): (e: Extent)
    requires items != []
    ensures forall i | 0 <= i < |items| ::
      e.left <= items[i].left && e.top <= items[i].top && items[i].right <= e.right && items[i].bottom <= e.bottom
    ensures (exists i | 0 <= i < |items| :: items[i].left == e.left)
    ensures (exists i | 0 <= i < |items| :: items[i].top == e.top)
    ensures (exists i | 0 <= i < |items| :: items[i].right == e.right)
    ensures (exists i | 0 <= i < |items| :: items[i].bottom == e.bottom)
  {
    var n := |items| - 1;
    var last := items[n];
    if n == 0 then Extent(last.left, last.top, last.right, last.bottom)
    else
      var e := Spanned(items[..n]);
      Extent(Min(e.left, last.left), Min(e.top, last.top), Max(e.right, last.right), Max(e.bottom, last.bottom))
  }

  datatype Zone = Header | Footer | Body

  function PageWidth(e: Extent): real { Max(1.0, e.right - e.left) }
  function PageHeight(e: Extent): real { Max(1.0, e.bottom - e.top) }

  function ZoneOf(e: Extent, item: Item): Zone {
    var spans := item.right - item.left >= PageWidth(e) * 0.70;
    var center := (item.top + item.bottom) / 2.0;
    if spans && center <= e.top + PageHeight(e) * 0.25 then Header
    else if spans && center >= e.top + PageHeight(e) * 0.75 then Footer
    else Body
  }

  function InZone(e: Extent, zone: Zone): Item -> bool {
    item => ZoneOf(e, item) == zone
  }

  // ----- orders

  function Vertical(): (Item, Item) -> bool {
    (a: Item, b: Item) => a.top < b.top || (a.top == b.top &&
             (a.left < b.left || (a.left == b.left && a.block.ordinal < b.block.ordinal)))
  }

  function CenterX(item: Item): real { (item.left + item.right) / 2.0 }

  function LeftToRight(): (Item, Item) -> bool {
    (a: Item, b: Item) => CenterX(a) < CenterX(b) || (CenterX(a) == CenterX(b) && a.block.ordinal < b.block.ordinal)
  }

  function ByOrdinal(): (Block, Block) -> bool {
    (a: Block, b: Block) => a.ordinal < b.ordinal
  }

  lemma OrdersWeak()
    ensures StrictWeak(Vertical()) && StrictWeak(LeftToRight()) && StrictWeak(ByOrdinal())
  {
  }

  // ----- columns

  function Total(column: seq<Item>): real {
    if column == [] then 0.0 else Total(column[..|column| - 1]) + CenterX(column[|column| - 1])
  }

  function Mean(column: seq<Item>): real
    requires column != []
  {
    Total(column) / |column| as real
  }

  lemma SingleMean(item: Item)
    ensures Mean([item]) == CenterX(item)
  {
    assert [item][..0] == [];
    assert Total([]) == 0.0;
    assert Total([item]) == Total([]) + CenterX(item);
  }

  function Flatten<T>(parts: seq<seq<T>>): seq<T> {
    if parts == [] then [] else Flatten(parts[..|parts| - 1]) + parts[|parts| - 1]
  }

  /** Every member lies within `gap` to the right of the mean of the members before it. */
  ghost predicate Tight(column: seq<Item>, gap: real) {
    column != [] && forall j | 0 < j < |column| :: CenterX(column[j]) - Mean(column[..j]) <= gap
  }

  /** The items cut into tight runs, each starting more than `gap` right of the last mean. */
  ghost predicate IsColumnSplit(items: seq<Item>, gap: real, columns: seq<seq<Item>>) {
    && Flatten(columns) == items
    && (forall k | 0 <= k < |columns| :: Tight(columns[k], gap))
    && forall k | 0 < k < |columns| :: CenterX(columns[k][0]) - Mean(columns[k - 1]) > gap
  }

  lemma NewColumn(items: seq<Item>, gap: real, columns: seq<seq<Item>>, item: Item)
    requires IsColumnSplit(items, gap, columns)
    requires columns == [] || (columns[|columns| - 1] != [] && CenterX(item) - Mean(columns[|columns| - 1]) > gap)
    ensures IsColumnSplit(items + [item], gap, columns + [[item]])
  {
  }

  lemma GrownColumn(items: seq<Item>, gap: real, columns: seq<seq<Item>>, item: Item)
    requires IsColumnSplit(items, gap, columns) && columns != [] && columns[|columns| - 1] != []
    requires CenterX(item) - Mean(columns[|columns| - 1]) <= gap
    ensures var n := |columns| - 1; IsColumnSplit(items + [item], gap, columns[n := columns[n] + [item]])
  {
    var n := |columns| - 1;
    var grown := columns[n] + [item];
    assert Tight(columns[n], gap);
    assert grown[..|columns[n]|] == columns[n];
    assert forall j | 0 < j < |columns[n]| :: grown[..j] == columns[n][..j];
    assert columns[n := grown][..n] == columns[..n];
  }

  ghost predicate Means(columns: seq<seq<Item>>, means: seq<real>) {
    |means| == |columns| && forall k | 0 <= k < |columns| :: columns[k] != [] && means[k] == Mean(columns[k])
  }

  /** One iteration: the item opens a new column or joins the last one. */
  method PlaceItem(ghost items: seq<Item>, gap: real, columns: seq<seq<Item>>, means: seq<real>, item: Item)
    returns (longer: seq<seq<Item>>, moved: seq<real>)
    requires Means(columns, means) && IsColumnSplit(items, gap, columns)
    ensures Means(longer, moved) && IsColumnSplit(items + [item], gap, longer)
  {
    var n := |columns| - 1;
    if columns == [] || CenterX(item) - means[n] > gap {
      NewColumn(items, gap, columns, item);
      SingleMean(item);
      longer, moved := columns + [[item]], means + [CenterX(item)];
    } else {
      GrownColumn(items, gap, columns, item);
      var grown := columns[n] + [item];
      longer, moved := columns[n := grown], means[n := Mean(grown)];
    }
  }

  /** The moving-mean loop. */
  method SplitColumns(items: seq<Item>, gap: real) returns (columns: seq<seq<Item>>)
    ensures IsColumnSplit(items, gap, columns)
  {
    columns := [];
    var means: seq<real> := [];
    for i := 0 to |items|
      invariant Means(columns, means) && IsColumnSplit(items[..i], gap, columns)
    {
      assert items[..i + 1] == items[..i] + [items[i]];
      columns, means := PlaceItem(items[..i], gap, columns, means, items[i]);
    }
    assert items[..|items|] == items;
  }

  /** `ordered.extend(sorted(column, key=vertical))` for every column. */
  function ReadColumns(columns: seq<seq<Item>>): seq<Item> {
    if columns == [] then []
    else ReadColumns(columns[..|columns| - 1]) + Sorted(columns[|columns| - 1], Vertical())
  }

  lemma {:induction false} ReadColumnsPermutes(columns: seq<seq<Item>>)
    ensures multiset(ReadColumns(columns)) == multiset(Flatten(columns))
  {
    if columns != [] { ReadColumnsPermutes(columns[..|columns| - 1]); }
  }

  // ----- the order

  /** Headers, then the columns, then footers, each top to bottom. */
  function ReadZones(items: seq<Item>, e: Extent, columns: seq<seq<Item>>): seq<Item> {
    Sorted(Filter(items, InZone(e, Header)), Vertical()) + ReadColumns(columns)
      + Sorted(Filter(items, InZone(e, Footer)), Vertical())
  }

  ghost predicate BodyColumns(items: seq<Item>, e: Extent, columns: seq<seq<Item>>) {
    IsColumnSplit(Sorted(Filter(items, InZone(e, Body)), LeftToRight()), PageWidth(e) * 0.25, columns)
  }

  /** Boxed blocks zone by zone, then the boxless ones by ordinal. */
  ghost predicate IsGeometryOrder(office: bool, blocks: seq<Block>, pageNo: int, ordered: seq<Block>) {
    var items := Boxed(office, blocks, pageNo);
    if items == [] then ordered == blocks
    else exists columns :: BodyColumns(items, Spanned(items), columns) &&
           ordered == Blocks(ReadZones(items, Spanned(items), columns))
             + Sorted(Filter(blocks, Boxless(pageNo)), ByOrdinal())
  }

  lemma ZonesPartition(items: seq<Item>, e: Extent)
    ensures multiset(items) == multiset(Filter(items, InZone(e, Header)) + Filter(items, InZone(e, Body))
                             + Filter(items, InZone(e, Footer)))
  {
    FilterPartition(items, InZone(e, Header), InZone(e, Body), InZone(e, Footer));
  }

  lemma {:induction false} BoxesPartition(office: bool, blocks: seq<Block>, pageNo: int)
    ensures multiset(blocks) == multiset(Blocks(Boxed(office, blocks, pageNo)))
      + multiset(Filter(blocks, Boxless(pageNo)))
  {
    if blocks != [] {
      BoxesPartition(office, blocks[1..], pageNo);
      assert blocks == [blocks[0]] + blocks[1..];
      var items := Boxed(office, blocks, pageNo);
      if BoxOf(blocks[0], pageNo).Some? {
        assert items[1..] == Boxed(office, blocks[1..], pageNo);
        assert Blocks(items) == [blocks[0]] + Blocks(items[1..]);
      }
    }
  }

  /** The hint lists every block of the page exactly as often as the page does. */
  lemma GeometryPermutes(office: bool, blocks: seq<Block>, pageNo: int, ordered: seq<Block>)
    requires IsGeometryOrder(office, blocks, pageNo, ordered)
    ensures multiset(ordered) == multiset(blocks)
  {
    var items := Boxed(office, blocks, pageNo);
    if items != [] {
      var columns :| BodyColumns(items, Spanned(items), columns) &&
        ordered == Blocks(ReadZones(items, Spanned(items), columns))
          + Sorted(Filter(blocks, Boxless(pageNo)), ByOrdinal());
      ZonesPermute(items, Spanned(items), columns);
      BoxesPartition(office, blocks, pageNo);
    }
  }

  lemma ZonesPermute(items: seq<Item>, e: Extent, columns: seq<seq<Item>>)
    requires BodyColumns(items, e, columns)
    ensures multiset(Blocks(ReadZones(items, e, columns))) == multiset(Blocks(items))
  {
    ReadColumnsPermutes(columns);
    ZonesPartition(items, e);
    MapPermutes(ReadZones(items, e, columns), items, (item: Item) => item.block);
  }

  // ----- what the column split means

  lemma {:induction false} FlattenConcat<T>(a: seq<seq<T>>, b: seq<seq<T>>)
    ensures Flatten(a + b) == Flatten(a) + Flatten(b)
  {
    if b == [] {
      assert a + b == a;
    } else {
      var n := |b| - 1;
      assert (a + b)[..|a + b| - 1] == a + b[..n];
      FlattenConcat(a, b[..n]);
    }
  }

  lemma FlattenFirst<T>(parts: seq<seq<T>>)
    requires parts != []
    ensures Flatten(parts) == parts[0] + Flatten(parts[1..])
  {
    assert parts == [parts[0]] + parts[1..];
    FlattenConcat([parts[0]], parts[1..]);
    assert Flatten([parts[0]]) == parts[0] by { assert [parts[0]][..0] == []; }
  }

  lemma FirstFar(items: seq<Item>, gap: real, columns: seq<seq<Item>>)
    requires IsColumnSplit(items, gap, columns) && columns != []
    ensures columns[0] != [] && columns[0] <= items
    ensures |columns| == 1 ==> |columns[0]| == |items|
    ensures |columns| > 1 ==> |columns[0]| < |items|
    ensures |columns| > 1 ==> CenterX(items[|columns[0]|]) - Mean(items[..|columns[0]|]) > gap
  {
    FlattenFirst(columns);
    assert Tight(columns[0], gap);
    if |columns| > 1 {
      FlattenFirst(columns[1..]);
      assert Tight(columns[1], gap);
      assert items[..|columns[0]|] == columns[0];
    } else {
      assert columns[1..] == [];
    }
  }

  lemma FirstNear(items: seq<Item>, gap: real, columns: seq<seq<Item>>, n: nat)
    requires IsColumnSplit(items, gap, columns) && columns != [] && 0 < n < |columns[0]| <= |items|
    ensures CenterX(items[n]) - Mean(items[..n]) <= gap
  {
    FlattenFirst(columns);
    assert Tight(columns[0], gap);
    assert columns[0][..n] == items[..n];
  }

  lemma FirstColumns(items: seq<Item>, gap: real, a: seq<seq<Item>>, b: seq<seq<Item>>)
    requires IsColumnSplit(items, gap, a) && IsColumnSplit(items, gap, b) && a != [] && b != []
    ensures |a[0]| >= |b[0]|
  {
    FirstFar(items, gap, a);
    FirstFar(items, gap, b);
    if |a[0]| < |b[0]| {
      FirstNear(items, gap, b, |a[0]|);
      assert false;
    }
  }

  lemma RestSplit(items: seq<Item>, gap: real, columns: seq<seq<Item>>)
    requires IsColumnSplit(items, gap, columns) && columns != []
    ensures 0 < |columns[0]| <= |items| && columns[0] == items[..|columns[0]|]
    ensures IsColumnSplit(items[|columns[0]|..], gap, columns[1..])
  {
    FirstFar(items, gap, columns);
    FlattenFirst(columns);
    assert forall k | 0 <= k < |columns[1..]| :: columns[1..][k] == columns[k + 1];
  }

  /** The split is determined: two cuts of the same items into tight, separated runs agree. */
  lemma {:induction false} ColumnSplitUnique(items: seq<Item>, gap: real, a: seq<seq<Item>>, b: seq<seq<Item>>)
    requires IsColumnSplit(items, gap, a) && IsColumnSplit(items, gap, b)
    ensures a == b
    decreases |a|
  {
    if a != [] { RestSplit(items, gap, a); }
    if b != [] { RestSplit(items, gap, b); }
    if a != [] && b != [] {
      FirstColumns(items, gap, a, b);
      FirstColumns(items, gap, b, a);
      ColumnSplitUnique(items[|a[0]|..], gap, a[1..], b[1..]);
      assert a == [a[0]] + a[1..] && b == [b[0]] + b[1..];
    }
  }

  lemma {:induction false} FlattenOrdered(columns: seq<seq<Item>>, k: nat, l: nat, i: nat, j: nat)
    requires k < l < |columns| && i < |columns[k]| && j < |columns[l]|
    ensures exists p, q :: 0 <= p < q < |Flatten(columns)| &&
              Flatten(columns)[p] == columns[k][i] && Flatten(columns)[q] == columns[l][j]
  {
    var left := columns[..l];
    assert columns == left + columns[l..];
    FlattenConcat(left, columns[l..]);
    FlattenFirst(columns[l..]);
    assert left == columns[..k] + left[k..];
    FlattenConcat(columns[..k], left[k..]);
    FlattenFirst(left[k..]);
    var p := |Flatten(columns[..k])| + i;
    var q := |Flatten(left)| + j;
    assert Flatten(columns)[p] == columns[k][i] && Flatten(columns)[q] == columns[l][j];
  }

  /** Columns read left to right: nothing in a later column is centred left of an earlier one. */
  lemma ColumnsLeftToRight(body: seq<Item>, gap: real, columns: seq<seq<Item>>, k: nat, l: nat, i: nat, j: nat)
    requires IsColumnSplit(Sorted(body, LeftToRight()), gap, columns)
    requires k < l < |columns| && i < |columns[k]| && j < |columns[l]|
    ensures CenterX(columns[k][i]) <= CenterX(columns[l][j])
  {
    OrdersWeak();
    SortedAscends(body, LeftToRight());
    FlattenOrdered(columns, k, l, i, j);
    var p, q :| 0 <= p < q < |Flatten(columns)| &&
              Flatten(columns)[p] == columns[k][i] && Flatten(columns)[q] == columns[l][j];
    assert !LeftToRight()(columns[l][j], columns[k][i]);
  }

  // ----- the function

  ghost predicate GeometryOrdered(office: bool, blocks: seq<Block>, pageNo: int, ids: seq<string>) {
    exists ordered :: IsGeometryOrder(office, blocks, pageNo, ordered) && ids == Ids(ordered)
  }

  /** Fails exactly when two blocks share an ID and some block has a box; otherwise the page's
      blocks, each once, in geometry order. For distinct IDs the coverage error cannot occur. */
  method LayoutGeometryOrder(office: bool, blocks: seq<Block>, pageNo: int) returns (r: Result<seq<string>>)
    ensures r.Err? <==> Boxed(office, blocks, pageNo) != [] && !DistinctIds(blocks)
    ensures r.Ok? ==> GeometryOrdered(office, blocks, pageNo, r.value)
    ensures r.Ok? ==> multiset(r.value) == multiset(Ids(blocks))
  {
    var boxed, unboxed := Classify(office, blocks, pageNo);
    if boxed == [] {
      NoBoxes(office, blocks, pageNo);
      r := Ok(Ids(blocks));
    } else {
      r := BoxedOrder(office, blocks, pageNo, boxed, unboxed);
    }
  }

  lemma NoBoxes(office: bool, blocks: seq<Block>, pageNo: int)
    requires Boxed(office, blocks, pageNo) == []
    ensures GeometryOrdered(office, blocks, pageNo, Ids(blocks))
  {
  }

  method BoxedOrder(office: bool, blocks: seq<Block>, pageNo: int, boxed: seq<Item>, unboxed: seq<Block>)
    returns (r: Result<seq<string>>)
    requires boxed == Boxed(office, blocks, pageNo) && unboxed == Filter(blocks, Boxless(pageNo)) && boxed != []
    ensures r.Err? <==> !DistinctIds(blocks)
    ensures r.Ok? ==> GeometryOrdered(office, blocks, pageNo, r.value) && multiset(r.value) == multiset(Ids(blocks))
  {
    ghost var columns;
    var zones;
    zones, columns := OrderZones(boxed, Spanned(boxed));
    AssembledOrder(office, blocks, pageNo, columns);
    r := CoverExactly(office, blocks, pageNo, Blocks(zones) + Sorted(unboxed, ByOrdinal()));
  }

  lemma AssembledOrder(office: bool, blocks: seq<Block>, pageNo: int, columns: seq<seq<Item>>)
    requires var items := Boxed(office, blocks, pageNo); items != [] && BodyColumns(items, Spanned(items), columns)
    ensures var items := Boxed(office, blocks, pageNo);
      IsGeometryOrder(office, blocks, pageNo,
                      Blocks(ReadZones(items, Spanned(items), columns))
                        + Sorted(Filter(blocks, Boxless(pageNo)), ByOrdinal()))
  {
  }

  method OrderZones(items: seq<Item>, e: Extent) returns (zones: seq<Item>, ghost columns: seq<seq<Item>>)
    ensures BodyColumns(items, e, columns) && zones == ReadZones(items, e, columns)
  {
    ZonesExclusive(e);
    var headers, footers, body := SplitThree(items, InZone(e, Header), InZone(e, Footer), InZone(e, Body));
    var split := SplitColumns(Sorted(body, LeftToRight()), PageWidth(e) * 0.25);
    columns := split;
    zones := Sorted(headers, Vertical()) + ReadColumns(split) + Sorted(footers, Vertical());
  }

  lemma ZonesExclusive(e: Extent)
    ensures Exclusive(InZone(e, Header), InZone(e, Footer), InZone(e, Body))
  {
  }

  ghost predicate Exclusive<T(!new)>(p: T -> bool, q: T -> bool, r: T -> bool) {
    forall x :: (p(x) ==> !q(x)) && (r(x) <==> !p(x) && !q(x))
  }

  /** The closing coverage check. */
  method CoverExactly(
    office: bool, blocks: seq<Block>, pageNo: int, ordered: seq<Block>) returns (r: Result<seq<string>>)
    requires IsGeometryOrder(office, blocks, pageNo, ordered)
    ensures r.Err? <==> !DistinctIds(blocks)
    ensures r.Ok? ==> GeometryOrdered(office, blocks, pageNo, r.value) && multiset(r.value) == multiset(Ids(blocks))
  {
    GeometryPermutes(office, blocks, pageNo, ordered);
    IdsPermute(ordered, blocks);
    var identifiers := Ids(ordered);
    if |identifiers| != |blocks| || |Elements(identifiers)| != |identifiers| {
      return Err("geometry order did not cover layout blocks exactly");
    }
    return Ok(identifiers);
  }

  /** The loop that separates boxed from boxless blocks. */
  method Classify(office: bool, blocks: seq<Block>, pageNo: int) returns (boxed: seq<Item>, unboxed: seq<Block>)
    ensures boxed == Boxed(office, blocks, pageNo) && unboxed == Filter(blocks, Boxless(pageNo))
  {
    boxed, unboxed := [], [];
    for i := 0 to |blocks|
      invariant boxed == Boxed(office, blocks[..i], pageNo) && unboxed == Filter(blocks[..i], Boxless(pageNo))
    {
      assert blocks[..i + 1] == blocks[..i] + [blocks[i]];
      BoxedSnoc(office, blocks[..i], blocks[i], pageNo);
      FilterSnoc(blocks[..i], blocks[i], Boxless(pageNo));
      var key := BoxOf(blocks[i], pageNo);
      if key.None? {
        unboxed := unboxed + [blocks[i]];
      } else {
        boxed := boxed + [Visual(office, blocks[i], key.value)];
      }
    }
    assert blocks[..|blocks|] == blocks;
  }

  /** The `if`/`elif`/`else` loop over items, each of which passes exactly one of the tests. */
  method SplitThree<T(!new)>(items: seq<T>, p: T -> bool, q: T -> bool, ghost r: T -> bool)
    returns (first: seq<T>, second: seq<T>, third: seq<T>)
    requires Exclusive(p, q, r)
    ensures first == Filter(items, p) && second == Filter(items, q) && third == Filter(items, r)
  {
    first, second, third := [], [], [];
    for i := 0 to |items|
      invariant first == Filter(items[..i], p) && second == Filter(items[..i], q) && third == Filter(items[..i], r)
    {
      assert items[..i + 1] == items[..i] + [items[i]];
      FilterSnoc(items[..i], items[i], p);
      FilterSnoc(items[..i], items[i], q);
      FilterSnoc(items[..i], items[i], r);
      if p(items[i]) { first := first + [items[i]]; }
      else if q(items[i]) { second := second + [items[i]]; }
      else { third := third + [items[i]]; }
    }
    assert items[..|items|] == items;
  }

  lemma IdsPermute(ordered: seq<Block>, blocks: seq<Block>)
    requires multiset(ordered) == multiset(blocks)
    ensures multiset(Ids(ordered)) == multiset(Ids(blocks)) && |ordered| == |blocks|
    ensures |Elements(Ids(ordered))| == |ordered| <==> DistinctIds(blocks)
  {
    var f := (b: Block) => b.blockId;
    MapPermutes(ordered, blocks, f);
    assert Map(ordered, f) == Ids(ordered) && Map(blocks, f) == Ids(blocks);
    assert |multiset(ordered)| == |ordered| && |multiset(blocks)| == |blocks|;
    DistinctCount(Ids(ordered));
    assert DistinctIds(blocks) <==> Distinct(Ids(blocks)) by {
      assert forall i | 0 <= i < |blocks| :: Ids(blocks)[i] == blocks[i].blockId;
    }
    if Distinct(Ids(ordered)) { MultisetDistinct(Ids(ordered), Ids(blocks)); }
    if Distinct(Ids(blocks)) { MultisetDistinct(Ids(blocks), Ids(ordered)); }
  }
}
