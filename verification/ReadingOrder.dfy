/** Reading order of a Docling document (restructure.py): the index of self references, the bounded
    walk over the reference graph, and the items no walk reaches. */
module ReadingOrder {
  import opened Common
  import opened Digest

  /** A JSON value as the walk sees it: a mapping's string `$ref` and `self_ref` and its children
      (none when they are not a list), or something that is not a mapping. */
  datatype Node =
    | Leaf
    | Mapping(reference: Option<string>, selfRef: Option<string>, children: seq<Node>)

  datatype CollectionName = Texts | Tables | Pictures | KeyValueItems | Groups

  /** A collection of the document: absent (or null), a list, or an invalid value. */
  datatype Collection = Absent | Invalid | Items(values: seq<Node>)

  datatype Entry = Entry(item: Node, collection: CollectionName, index: nat)

  datatype Document = Document(
    body: Node, texts: Collection, tables: Collection, pictures: Collection, keyValueItems: Collection,
    groups: Collection)

  const MAX_BLOCKS := 20_000

  function NameText(name: CollectionName): string {
    match name
    case Texts => "texts"
    case Tables => "tables"
    case Pictures => "pictures"
    case KeyValueItems => "key_value_items"
    case Groups => "groups"
  }

  predicate IsReference(text: string) {
    StartsWith(text, "#/")
  }

  function SelfRefOf(item: Node): Option<string> {
    if item.Mapping? then item.selfRef else None
  }

  /** `_self_ref`: the item's own reference, or its place in the document. */
  function Key(e: Entry): string {
    var own := SelfRefOf(e.item);
    if own.Some? && IsReference(own.value) && |own.value| <= 512 then own.value
    else "#/" + NameText(e.collection) + "/" + Decimal(e.index)
  }

  // ----- the index

  type Index = map<string, Entry>

  function CollectionOf(d: Document, name: CollectionName): Collection {
    match name
    case Texts => d.texts
    case Tables => d.tables
    case Pictures => d.pictures
    case KeyValueItems => d.keyValueItems
    case Groups => d.groups
  }

  const NAMES := [Texts, Tables, Pictures, KeyValueItems, Groups]

  /** The mappings of a list, with their positions in it. */
  function EntriesOf(values: seq<Node>, name: CollectionName): seq<Entry> {
    if values == [] then []
    else
      var n := |values| - 1;
      EntriesOf(values[..n], name) + if values[n].Mapping? then [Entry(values[n], name, n)] else []
  }

  function EntriesIn(c: Collection, name: CollectionName): seq<Entry> {
    if c.Items? then EntriesOf(c.values, name) else []
  }

  /** The serialized items of the first `n` collections. */
  function SerializedUpTo(d: Document, n: nat): seq<Entry>
    requires n <= |NAMES|
  {
    if n == 0 then [] else SerializedUpTo(d, n - 1) + EntriesIn(CollectionOf(d, NAMES[n - 1]), NAMES[n - 1])
  }

  function Serialized(d: Document): seq<Entry> {
    SerializedUpTo(d, |NAMES|)
  }

  predicate Referable(e: Entry) {
    e.item.Mapping? && e.item.selfRef.Some? && IsReference(e.item.selfRef.value)
  }

  /** Every self reference is short and belongs to one item. */
  ghost predicate RefsValid(entries: seq<Entry>) {
    && (forall i | 0 <= i < |entries| && Referable(entries[i]) :: |entries[i].item.selfRef.value| <= 512)
    && forall i, j | 0 <= i < j < |entries| && Referable(entries[i]) && Referable(entries[j]) ::
         entries[i].item.selfRef != entries[j].item.selfRef
  }

  ghost predicate Indexes(indexed: map<string, Entry>, entries: seq<Entry>) {
    && (forall k {:trigger indexed[k]} | k in indexed ::
          indexed[k] in entries && Referable(indexed[k]) && indexed[k].item.selfRef == Some(k))
    && forall e | e in entries && Referable(e) :: e.item.selfRef.value in indexed && indexed[e.item.selfRef.value] == e
  }

  ghost predicate IndexAccepted(d: Document) {
    && (forall name | name in NAMES :: !CollectionOf(d, name).Invalid?)
    && RefsValid(Serialized(d)) && |Serialized(d)| <= MAX_BLOCKS * 4
  }

  lemma RefsSnoc(indexed: map<string, Entry>, entries: seq<Entry>, e: Entry)
    requires RefsValid(entries) && Indexes(indexed, entries)
    ensures RefsValid(entries + [e]) <==>
      !(Referable(e) && (|e.item.selfRef.value| > 512 || e.item.selfRef.value in indexed))
    ensures RefsValid(entries + [e]) ==>
      Indexes(if Referable(e) then indexed[e.item.selfRef.value := e] else indexed, entries + [e])
  {
    var longer := entries + [e];
    assert longer[|entries|] == e && forall i | 0 <= i < |entries| :: longer[i] == entries[i];
    assert forall x :: x in longer <==> x in entries || x == e;
    if Referable(e) && e.item.selfRef.value in indexed {
      var i :| 0 <= i < |entries| && entries[i] == indexed[e.item.selfRef.value];
      assert longer[i].item.selfRef == longer[|entries|].item.selfRef;
    }
  }

  lemma RefsPrefix(entries: seq<Entry>, more: seq<Entry>)
    requires RefsValid(entries + more)
    ensures RefsValid(entries)
  {
    assert forall i | 0 <= i < |entries| :: (entries + more)[i] == entries[i];
  }

  lemma EntriesSnoc(values: seq<Node>, i: nat, name: CollectionName)
    requires i < |values|
    ensures EntriesOf(values[..i + 1], name)
         == EntriesOf(values[..i], name) + if values[i].Mapping? then [Entry(values[i], name, i)] else []
  {
    assert values[..i + 1][..i] == values[..i];
  }

  /** The items of one collection, added to the index and the serialized list. */
  method IndexCollection(values: seq<Node>, name: CollectionName, known: map<string, Entry>, before: seq<Entry>)
    returns (ok: bool, indexed: map<string, Entry>, serialized: seq<Entry>)
    requires RefsValid(before) && Indexes(known, before)
    ensures ok <==> RefsValid(before + EntriesOf(values, name))
    ensures ok ==> serialized == before + EntriesOf(values, name) && Indexes(indexed, serialized)
  {
    ok, indexed, serialized := true, known, before;
    var i := 0;
    assert before + EntriesOf(values[..0], name) == before;
    while i < |values| && ok
      invariant 0 <= i <= |values|
      invariant ok ==> serialized == before + EntriesOf(values[..i], name) && Indexes(indexed, serialized)
      invariant ok <==> RefsValid(before + EntriesOf(values[..i], name))
    {
      EntriesSnoc(values, i, name);
      if values[i].Mapping? {
        var entry := Entry(values[i], name, i);
        RefsSnoc(indexed, serialized, entry);
        assert before + EntriesOf(values[..i + 1], name) == serialized + [entry];
        serialized := serialized + [entry];
        if Referable(entry) {
          ok := !(|entry.item.selfRef.value| > 512 || entry.item.selfRef.value in indexed);
          indexed := indexed[entry.item.selfRef.value := entry];
        }
      }
      i := i + 1;
    }
    PrefixFails(values, name, before, i);
  }

  lemma {:induction false} PrefixFails(values: seq<Node>, name: CollectionName, before: seq<Entry>, i: nat)
    requires i <= |values|
    ensures RefsValid(before + EntriesOf(values, name)) ==> RefsValid(before + EntriesOf(values[..i], name))
    ensures i == |values| ==> EntriesOf(values[..i], name) == EntriesOf(values, name)
  {
    if i == |values| {
      assert values[..i] == values;
    } else {
      var n := |values| - 1;
      EntriesSnoc(values, n, name);
      assert values[..n + 1] == values && values[..n][..i] == values[..i];
      if RefsValid(before + EntriesOf(values, name)) {
        var more := if values[n].Mapping? then [Entry(values[n], name, n)] else [];
        assert before + EntriesOf(values, name) == before + EntriesOf(values[..n], name) + more;
        RefsPrefix(before + EntriesOf(values[..n], name), more);
        PrefixFails(values[..n], name, before, i);
      }
    }
  }

  /** The first `n` collections are acceptable. */
  ghost predicate UpTo(d: Document, n: nat)
    requires n <= |NAMES|
  {
    (forall m | 0 <= m < n :: !CollectionOf(d, NAMES[m]).Invalid?) && RefsValid(SerializedUpTo(d, n))
  }

  lemma UpToLess(d: Document, n: nat)
    requires 0 < n <= |NAMES| && UpTo(d, n)
    ensures UpTo(d, n - 1)
  {
    RefsPrefix(SerializedUpTo(d, n - 1), EntriesIn(CollectionOf(d, NAMES[n - 1]), NAMES[n - 1]));
  }

  lemma {:induction false} UpToAll(d: Document, n: nat)
    requires n <= |NAMES| && UpTo(d, |NAMES|)
    ensures UpTo(d, n)
    decreases |NAMES| - n
  {
    if n < |NAMES| {
      UpToAll(d, n + 1);
      UpToLess(d, n + 1);
    }
  }

  lemma AllNames(d: Document)
    ensures IndexAccepted(d) <==> UpTo(d, |NAMES|) && |Serialized(d)| <= MAX_BLOCKS * 4
  {
    forall m | 0 <= m < |NAMES| ensures NAMES[m] in NAMES {}
  }

  method IndexNext(d: Document, n: nat, known: Index, before: seq<Entry>)
    returns (ok: bool, indexed: Index, serialized: seq<Entry>)
    requires n < |NAMES| && UpTo(d, n) && before == SerializedUpTo(d, n) && Indexes(known, before)
    ensures ok <==> UpTo(d, n + 1)
    ensures ok ==> serialized == SerializedUpTo(d, n + 1) && Indexes(indexed, serialized)
  {
    var collection := CollectionOf(d, NAMES[n]);
    ok, indexed, serialized := !collection.Invalid?, known, before;
    if collection.Items? {
      ok, indexed, serialized := IndexCollection(collection.values, NAMES[n], known, before);
    } else {
      assert before + [] == before;
    }
  }

  /** `_index_items`. */
  method IndexItems(d: Document) returns (r: Result<(Index, seq<Entry>)>)
    ensures r.Ok? <==> IndexAccepted(d)
    ensures r.Ok? ==> r.value.1 == Serialized(d) && Indexes(r.value.0, Serialized(d))
  {
    var indexed: Index, serialized: seq<Entry> := map[], [];
    var ok := true;
    var n := 0;
    while n < |NAMES| && ok
      invariant 0 <= n <= |NAMES|
      invariant ok ==> serialized == SerializedUpTo(d, n) && Indexes(indexed, serialized)
      invariant ok <==> UpTo(d, n)
    {
      ok, indexed, serialized := IndexNext(d, n, indexed, serialized);
      n := n + 1;
    }
    AllNames(d);
    if !ok {
      if IndexAccepted(d) { UpToAll(d, n); }
      r := Err("Docling document contains an invalid collection or self_ref");
    } else if |serialized| > MAX_BLOCKS * 4 {
      r := Err("Docling document contains too many serialized items");
    } else {
      r := Ok((indexed, serialized));
    }
  }

  // ----- the bounded walk

  /** The indexed item a value stands for: by its `$ref`, else by its own `self_ref`. */
  function Resolve(indexed: Index, value: Node): Option<Entry> {
    if value.Leaf? then None
    else if value.reference.Some? && value.reference.value in indexed then Some(indexed[value.reference.value])
    else if value.selfRef.Some? && value.selfRef.value in indexed then Some(indexed[value.selfRef.value])
    else None
  }

  function ChildrenOf(value: Node): seq<Node> {
    if value.Mapping? then value.children else []
  }

  datatype Walk = Walk(ordered: seq<Entry>, visited: set<string>, traversed: nat)

  function Enter(w: Walk, e: Entry): Walk {
    w.(visited := w.visited + {Key(e)}, ordered := if e.collection == Groups then w.ordered else w.ordered + [e])
  }

  const MAX_DEPTH: nat := 64

  /** `visit`: None when the graph exceeds a limit. */
  function WalkFrom(indexed: Index, limit: nat, value: Node, depth: nat, w: Walk): Option<Walk>
    requires depth <= MAX_DEPTH + 1
    decreases MAX_DEPTH + 1 - depth, 0
  {
    var next := w.(traversed := w.traversed + 1);
    if next.traversed > limit || depth > MAX_DEPTH then None
    else
      var entry := Resolve(indexed, value);
      if entry.None? then WalkAll(indexed, limit, ChildrenOf(value), depth + 1, next)
      else if Key(entry.value) in next.visited then Some(next)
      else WalkAll(indexed, limit, ChildrenOf(entry.value.item), depth + 1, Enter(next, entry.value))
  }

  function WalkAll(indexed: Index, limit: nat, values: seq<Node>, depth: nat, w: Walk): Option<Walk>
    requires depth <= MAX_DEPTH + 1
    decreases MAX_DEPTH + 1 - depth, |values| + 1
  {
    if values == [] then Some(w)
    else
      var first := WalkFrom(indexed, limit, values[0], depth, w);
      if first.None? then None else WalkAll(indexed, limit, values[1..], depth, first.value)
  }

  /** The nonlocal state of the walk. */
  class Walker {
    const indexed: Index
    const limit: nat
    var ordered: seq<Entry>
    var visited: set<string>
    var traversed: nat

    ghost function Now(): Walk
      reads this
    {
      Walk(ordered, visited, traversed)
    }

    constructor (indexed: Index, limit: nat)
      ensures this.indexed == indexed && this.limit == limit && Now() == Walk([], {}, 0)
    {
      this.indexed, this.limit, ordered, visited, traversed := indexed, limit, [], {}, 0;
    }

    method Visit(value: Node, depth: nat) returns (ok: bool)
      requires depth <= MAX_DEPTH + 1
      modifies this
      ensures ok <==> WalkFrom(indexed, limit, value, depth, old(Now())).Some?
      ensures ok ==> Some(Now()) == WalkFrom(indexed, limit, value, depth, old(Now()))
      decreases MAX_DEPTH + 1 - depth, 0
    {
      traversed := traversed + 1;
      if traversed > limit || depth > MAX_DEPTH {
        return false;
      }
      var entry := Resolve(indexed, value);
      if entry.None? {
        ok := VisitChildren(ChildrenOf(value), depth + 1);
      } else if Key(entry.value) in visited {
        ok := true;
      } else {
        visited := visited + {Key(entry.value)};
        if entry.value.collection != Groups { ordered := ordered + [entry.value]; }
        ok := VisitChildren(ChildrenOf(entry.value.item), depth + 1);
      }
    }

    method VisitChildren(children: seq<Node>, depth: nat) returns (ok: bool)
      requires depth <= MAX_DEPTH + 1
      modifies this
      ensures ok <==> WalkAll(indexed, limit, children, depth, old(Now())).Some?
      ensures ok ==> Some(Now()) == WalkAll(indexed, limit, children, depth, old(Now()))
      decreases MAX_DEPTH + 1 - depth, |children| + 1
    {
      ok := true;
      var i := 0;
      ghost var start := Now();
      assert children[0..] == children;
      while i < |children| && ok
        invariant 0 <= i <= |children|
        invariant ok ==>
          WalkAll(indexed, limit, children, depth, start) == WalkAll(indexed, limit, children[i..], depth, Now())
        invariant !ok ==> WalkAll(indexed, limit, children, depth, start).None?
      {
        assert children[i..][1..] == children[i + 1..];
        ok := Visit(children[i], depth);
        i := i + 1;
      }
    }
  }

  // ----- the items the walk did not reach

  /** Unvisited items that are not groups, in serialized order, one to a key. */
  function Rest(serialized: seq<Entry>, visited: set<string>): seq<Entry> {
    if serialized == [] then []
    else
      var e, tail := serialized[0], serialized[1..];
      if e.collection == Groups || Key(e) in visited then Rest(tail, visited)
      else [e] + Rest(tail, visited + {Key(e)})
  }

  /** The walk from the body; None when a limit is exceeded. */
  function BodyWalk(d: Document, indexed: Index, maxBlocks: nat): Option<Walk> {
    if d.body.Mapping? then WalkFrom(indexed, maxBlocks * 8, d.body, 0, Walk([], {}, 0)) else Some(Walk([], {}, 0))
  }

  /** `_reading_order`. */
  method InReadingOrder(
    d: Document, indexed: Index, serialized: seq<Entry>, maxBlocks: nat) returns (r: Result<seq<Entry>>)
    ensures r.Ok? <==> BodyWalk(d, indexed, maxBlocks).Some?
    ensures r.Ok? ==>
      var w := BodyWalk(d, indexed, maxBlocks).value; r.value == w.ordered + Rest(serialized, w.visited)
  {
    var walker := new Walker(indexed, maxBlocks * 8);
    var ok := true;
    if d.body.Mapping? { ok := walker.Visit(d.body, 0); }
    if !ok {
      return Err("Docling reading-order graph exceeds its limit");
    }
    var ordered, visited := walker.ordered, walker.visited;
    ghost var all := ordered + Rest(serialized, visited);
    var i := 0;
    assert serialized[0..] == serialized;
    while i < |serialized|
      invariant 0 <= i <= |serialized|
      invariant ordered + Rest(serialized[i..], visited) == all
    {
      var e := serialized[i];
      assert serialized[i..][1..] == serialized[i + 1..];
      if e.collection != Groups && Key(e) !in visited {
        assert ordered + ([e] + Rest(serialized[i + 1..], visited + {Key(e)}))
            == ordered + [e] + Rest(serialized[i + 1..], visited + {Key(e)});
        visited := visited + {Key(e)};
        ordered := ordered + [e];
      }
      i := i + 1;
    }
    assert ordered + [] == ordered;
    r := Ok(ordered);
  }
}
