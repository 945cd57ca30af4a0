/** What the reading order contains: the bounded walk is a preorder of exactly the reachable items, and
    every item is listed once unless keys collide. */
module ReadingReach {
  import opened Common
  import opened Digest
  import opened ReadingOrder

  // ----- the reference preorder: an explicit stack and no limits

  function Size(value: Node): nat {
    match value
    case Leaf => 1
    case Mapping(_, _, children) => 1 + SizesWithin(value, children)
  }

  function SizesWithin(parent: Node, values: seq<Node>): nat
    requires forall i | 0 <= i < |values| :: values[i] < parent
    decreases parent, |values|
  {
    if values == [] then 0 else Size(values[0]) + SizesWithin(parent, values[1..])
  }

  function Sizes(values: seq<Node>): nat {
    if values == [] then 0 else Size(values[0]) + Sizes(values[1..])
  }

  lemma {:induction false} SizesAgree(parent: Node, values: seq<Node>)
    requires forall i | 0 <= i < |values| :: values[i] < parent
    ensures SizesWithin(parent, values) == Sizes(values)
  {
    if values != [] { SizesAgree(parent, values[1..]); }
  }

  lemma {:induction false} SizesConcat(a: seq<Node>, b: seq<Node>)
    ensures Sizes(a + b) == Sizes(a) + Sizes(b)
  {
    if a == [] {
      assert a + b == b;
    } else {
      assert (a + b)[1..] == a[1..] + b;
      SizesConcat(a[1..], b);
    }
  }

  lemma ChildrenSmaller(value: Node)
    ensures Sizes(ChildrenOf(value)) < Size(value)
  {
    if value.Mapping? { SizesAgree(value, value.children); }
  }

  /** Every indexed item is filed under its key. */
  ghost predicate Keyed(indexed: Index) {
    forall k {:trigger indexed[k]} | k in indexed :: Key(indexed[k]) == k
  }

  function Listed(e: Entry): seq<Entry> {
    if e.collection == Groups then [] else [e]
  }

  lemma VisitShrinks(indexed: Index, visited: set<string>, e: Entry)
    requires Key(e) in indexed && Key(e) !in visited
    ensures |indexed.Keys - (visited + {Key(e)})| < |indexed.Keys - visited|
  {
    assert indexed.Keys - (visited + {Key(e)}) == indexed.Keys - visited - {Key(e)};
  }

  lemma ResolvedKey(indexed: Index, value: Node)
    requires Keyed(indexed) && Resolve(indexed, value).Some?
    ensures var e := Resolve(indexed, value).value; Key(e) in indexed && indexed[Key(e)] == e
  {
  }

  datatype Order = Order(ordered: seq<Entry>, visited: set<string>)

  function Preorder(indexed: Index, stack: seq<Node>, o: Order): Order
    requires Keyed(indexed)
    decreases |indexed.Keys - o.visited|, Sizes(stack)
  {
    if stack == [] then o
    else
      var value, rest := stack[0], stack[1..];
      var entry := Resolve(indexed, value);
      ChildrenSmaller(value);
      SizesConcat(ChildrenOf(value), rest);
      if entry.None? then Preorder(indexed, ChildrenOf(value) + rest, o)
      else
        ResolvedKey(indexed, value);
        var e := entry.value;
        if Key(e) in o.visited then Preorder(indexed, rest, o)
        else
          VisitShrinks(indexed, o.visited, e);
          Preorder(indexed, ChildrenOf(e.item) + rest, Order(o.ordered + Listed(e), o.visited + {Key(e)}))
  }

  function Seen(w: Walk): Order {
    Order(w.ordered, w.visited)
  }

  /** Whenever the bounded recursive walk returns, it has done what the preorder does. */
  lemma {:induction false} WalkIsPreorder(indexed: Index, limit: nat, value: Node, depth: nat, w: Walk, rest: seq<Node>)
    requires Keyed(indexed) && depth <= MAX_DEPTH + 1 && WalkFrom(indexed, limit, value, depth, w).Some?
    ensures Preorder(indexed, [value] + rest, Seen(w))
         == Preorder(indexed, rest, Seen(WalkFrom(indexed, limit, value, depth, w).value))
    decreases MAX_DEPTH + 1 - depth, 0
  {
    var stack := [value] + rest;
    assert stack[0] == value && stack[1..] == rest;
    var next := w.(traversed := w.traversed + 1);
    var entry := Resolve(indexed, value);
    if entry.None? {
      WalkAllIsPreorder(indexed, limit, ChildrenOf(value), depth + 1, next, rest);
    } else if Key(entry.value) !in next.visited {
      WalkAllIsPreorder(indexed, limit, ChildrenOf(entry.value.item), depth + 1, Enter(next, entry.value), rest);
      assert w.ordered + [] == w.ordered;
    }
  }

  lemma {:induction false} WalkAllIsPreorder(
    indexed: Index, limit: nat, values: seq<Node>, depth: nat, w: Walk, rest: seq<Node>)
    requires Keyed(indexed) && depth <= MAX_DEPTH + 1 && WalkAll(indexed, limit, values, depth, w).Some?
    ensures Preorder(indexed, values + rest, Seen(w))
         == Preorder(indexed, rest, Seen(WalkAll(indexed, limit, values, depth, w).value))
    decreases MAX_DEPTH + 1 - depth, |values| + 1
  {
    if values == [] {
      assert values + rest == rest;
    } else {
      assert values + rest == [values[0]] + (values[1..] + rest);
      WalkIsPreorder(indexed, limit, values[0], depth, w, values[1..] + rest);
      WalkAllIsPreorder(indexed, limit, values[1..], depth, WalkFrom(indexed, limit, values[0], depth, w).value, rest);
    }
  }

  // ----- reachability

  /** The keys a value refers to without passing through another item. */
  function Refs(indexed: Index, value: Node): set<string>
    decreases Size(value), 0
  {
    var entry := Resolve(indexed, value);
    ChildrenSmaller(value);
    if entry.Some? then {Key(entry.value)} else RefsAll(indexed, ChildrenOf(value))
  }

  function RefsAll(indexed: Index, values: seq<Node>): set<string>
    decreases Sizes(values), |values| + 1
  {
    if values == [] then {} else Refs(indexed, values[0]) + RefsAll(indexed, values[1..])
  }

  lemma {:induction false} RefsConcat(indexed: Index, a: seq<Node>, b: seq<Node>)
    ensures RefsAll(indexed, a + b) == RefsAll(indexed, a) + RefsAll(indexed, b)
  {
    if a == [] {
      assert a + b == b;
    } else {
      assert (a + b)[0] == a[0] && (a + b)[1..] == a[1..] + b;
      RefsConcat(indexed, a[1..], b);
    }
  }

  function ItemRefs(indexed: Index, k: string): set<string>
    requires k in indexed
  {
    RefsAll(indexed, ChildrenOf(indexed[k].item))
  }

  /** A set of keys that following references does not leave. */
  ghost predicate Closed(indexed: Index, c: set<string>) {
    forall k | k in indexed && k in c :: ItemRefs(indexed, k) <= c
  }

  /** The least closed set that contains what the body refers to. */
  ghost predicate IsReachable(indexed: Index, body: Node, c: set<string>) {
    && Closed(indexed, c) && Refs(indexed, body) <= c
    && forall other | Closed(indexed, other) && Refs(indexed, body) <= other :: c <= other
  }

  /** The references of visited items are visited or still on the stack. */
  ghost predicate Pending(indexed: Index, stack: seq<Node>, visited: set<string>) {
    visited <= indexed.Keys && forall k | k in visited :: ItemRefs(indexed, k) <= visited + RefsAll(indexed, stack)
  }

  lemma PendingStep(indexed: Index, value: Node, rest: seq<Node>, visited: set<string>)
    requires Keyed(indexed) && Pending(indexed, [value] + rest, visited)
    ensures var entry := Resolve(indexed, value);
      if entry.None? then Pending(indexed, ChildrenOf(value) + rest, visited)
      else if Key(entry.value) in visited then Pending(indexed, rest, visited)
      else
        && Key(entry.value) in indexed
        && Pending(indexed, ChildrenOf(entry.value.item) + rest, visited + {Key(entry.value)})
  {
    RefsConcat(indexed, [value], rest);
    assert RefsAll(indexed, [value]) == Refs(indexed, value) + RefsAll(indexed, [value][1..]);
    RefsConcat(indexed, ChildrenOf(value), rest);
    if Resolve(indexed, value).Some? {
      ResolvedKey(indexed, value);
      RefsConcat(indexed, ChildrenOf(Resolve(indexed, value).value.item), rest);
    }
  }

  lemma {:induction false} PreorderCloses(indexed: Index, stack: seq<Node>, o: Order)
    requires Keyed(indexed) && Pending(indexed, stack, o.visited)
    ensures var v := Preorder(indexed, stack, o).visited;
      o.visited <= v <= indexed.Keys && Closed(indexed, v) && RefsAll(indexed, stack) <= v
    decreases |indexed.Keys - o.visited|, Sizes(stack)
  {
    if stack != [] {
      var value, rest := stack[0], stack[1..];
      assert stack == [value] + rest;
      PendingStep(indexed, value, rest, o.visited);
      RefsConcat(indexed, ChildrenOf(value), rest);
      ChildrenSmaller(value);
      SizesConcat(ChildrenOf(value), rest);
      var entry := Resolve(indexed, value);
      if entry.None? {
        PreorderCloses(indexed, ChildrenOf(value) + rest, o);
      } else if Key(entry.value) in o.visited {
        PreorderCloses(indexed, rest, o);
      } else {
        var e := entry.value;
        VisitShrinks(indexed, o.visited, e);
        RefsConcat(indexed, ChildrenOf(e.item), rest);
        PreorderCloses(indexed, ChildrenOf(e.item) + rest, Order(o.ordered + Listed(e), o.visited + {Key(e)}));
      }
    }
  }

  lemma {:induction false} PreorderLeast(indexed: Index, stack: seq<Node>, o: Order, c: set<string>)
    requires Keyed(indexed) && Closed(indexed, c) && o.visited <= c && RefsAll(indexed, stack) <= c
    ensures Preorder(indexed, stack, o).visited <= c
    decreases |indexed.Keys - o.visited|, Sizes(stack)
  {
    if stack != [] {
      var value, rest := stack[0], stack[1..];
      ChildrenSmaller(value);
      SizesConcat(ChildrenOf(value), rest);
      RefsConcat(indexed, ChildrenOf(value), rest);
      var entry := Resolve(indexed, value);
      if entry.None? {
        PreorderLeast(indexed, ChildrenOf(value) + rest, o, c);
      } else if Key(entry.value) in o.visited {
        PreorderLeast(indexed, rest, o, c);
      } else {
        var e := entry.value;
        ResolvedKey(indexed, value);
        VisitShrinks(indexed, o.visited, e);
        RefsConcat(indexed, ChildrenOf(e.item), rest);
        assert ItemRefs(indexed, Key(e)) <= c;
        PreorderLeast(indexed, ChildrenOf(e.item) + rest, Order(o.ordered + Listed(e), o.visited + {Key(e)}), c);
      }
    }
  }

  /** The walk visits exactly what is reachable, on any cyclic or shared graph. */
  lemma VisitedIsReachable(indexed: Index, body: Node)
    requires Keyed(indexed)
    ensures IsReachable(indexed, body, Preorder(indexed, [body], Order([], {})).visited)
  {
    var start := Order([], {});
    PreorderCloses(indexed, [body], start);
    assert RefsAll(indexed, [body]) == Refs(indexed, body) + RefsAll(indexed, [body][1..]);
    forall other | Closed(indexed, other) && Refs(indexed, body) <= other
      ensures Preorder(indexed, [body], start).visited <= other
    {
      PreorderLeast(indexed, [body], start, other);
    }
  }

  // ----- what the walk lists

  ghost predicate KeysDiffer(entries: seq<Entry>) {
    forall i, j | 0 <= i < j < |entries| :: Key(entries[i]) != Key(entries[j])
  }

  /** The list holds exactly the visited items that are not groups, each once. */
  ghost predicate Faithful(indexed: Index, o: Order) {
    && o.visited <= indexed.Keys && KeysDiffer(o.ordered)
    && (forall e | e in o.ordered :: Key(e) in o.visited && indexed[Key(e)] == e && e.collection != Groups)
    && forall k | k in o.visited && indexed[k].collection != Groups :: indexed[k] in o.ordered
  }

  lemma EnterFaithful(indexed: Index, o: Order, e: Entry)
    requires Keyed(indexed) && Faithful(indexed, o) && Key(e) in indexed && indexed[Key(e)] == e && Key(e) !in o.visited
    ensures Faithful(indexed, Order(o.ordered + Listed(e), o.visited + {Key(e)}))
  {
  }

  lemma {:induction false} PreorderFaithful(indexed: Index, stack: seq<Node>, o: Order)
    requires Keyed(indexed) && Faithful(indexed, o)
    ensures Faithful(indexed, Preorder(indexed, stack, o))
    decreases |indexed.Keys - o.visited|, Sizes(stack)
  {
    if stack != [] {
      var value, rest := stack[0], stack[1..];
      ChildrenSmaller(value);
      SizesConcat(ChildrenOf(value), rest);
      var entry := Resolve(indexed, value);
      if entry.None? {
        PreorderFaithful(indexed, ChildrenOf(value) + rest, o);
      } else if Key(entry.value) in o.visited {
        PreorderFaithful(indexed, rest, o);
      } else {
        var e := entry.value;
        ResolvedKey(indexed, value);
        VisitShrinks(indexed, o.visited, e);
        EnterFaithful(indexed, o, e);
        PreorderFaithful(indexed, ChildrenOf(e.item) + rest, Order(o.ordered + Listed(e), o.visited + {Key(e)}));
      }
    }
  }

  // ----- the whole reading order

  lemma IndexedKeys(indexed: Index, entries: seq<Entry>)
    requires Indexes(indexed, entries) && RefsValid(entries)
    ensures Keyed(indexed)
  {
  }

  /** Preorder of the reachable items, then the unreached ones in serialized order. */
  function Reading(d: Document, indexed: Index, serialized: seq<Entry>): seq<Entry>
    requires Keyed(indexed)
  {
    var walk := Preorder(indexed, [d.body], Order([], {}));
    walk.ordered + Rest(serialized, walk.visited)
  }

  lemma LeafPreorder(indexed: Index, o: Order)
    requires Keyed(indexed)
    ensures Preorder(indexed, [Leaf], o) == o
  {
  }

  /** What `_reading_order` returns, whenever it returns. */
  lemma OrderIsReading(d: Document, indexed: Index, serialized: seq<Entry>, maxBlocks: nat)
    requires Keyed(indexed) && BodyWalk(d, indexed, maxBlocks).Some?
    ensures var w := BodyWalk(d, indexed, maxBlocks).value;
      && w.ordered + Rest(serialized, w.visited) == Reading(d, indexed, serialized)
      && IsReachable(indexed, d.body, w.visited)
  {
    VisitedIsReachable(indexed, d.body);
    var start := Walk([], {}, 0);
    assert [d.body] + [] == [d.body];
    if d.body.Mapping? {
      WalkIsPreorder(indexed, maxBlocks * 8, d.body, 0, start, []);
    } else {
      LeafPreorder(indexed, Order([], {}));
    }
  }

  // ----- every item once

  predicate Wanted(serialized: seq<Entry>, e: Entry) {
    e in serialized && e.collection != Groups
  }

  /** Every item that is not a group is listed exactly once, and nothing else is. */
  ghost predicate ListsEachOnce(r: seq<Entry>, serialized: seq<Entry>) {
    Distinct(r) && forall e :: e in r <==> Wanted(serialized, e)
  }

  /** No two items share a key, and no item shares one with a reachable group. */
  ghost predicate KeysApart(indexed: Index, serialized: seq<Entry>, visited: set<string>) {
    && (forall e, f | Wanted(serialized, e) && Wanted(serialized, f) && Key(e) == Key(f) :: e == f)
    && forall e | Wanted(serialized, e) && Key(e) in visited && Key(e) in indexed ::
      indexed[Key(e)].collection != Groups
  }

  lemma KeysConcat(a: seq<Entry>, b: seq<Entry>)
    requires KeysDiffer(a) && KeysDiffer(b) && forall e, f | e in a && f in b :: Key(e) != Key(f)
    ensures KeysDiffer(a + b)
  {
  }

  lemma {:induction false} RestListed(serialized: seq<Entry>, visited: set<string>, f: Entry)
    requires f in Rest(serialized, visited)
    ensures Wanted(serialized, f) && Key(f) !in visited
  {
    var e, tail := serialized[0], serialized[1..];
    assert serialized == [e] + tail;
    if e.collection == Groups || Key(e) in visited {
      RestListed(tail, visited, f);
    } else if f != e {
      RestListed(tail, visited + {Key(e)}, f);
    }
  }

  lemma {:induction false} RestDiffers(serialized: seq<Entry>, visited: set<string>)
    ensures KeysDiffer(Rest(serialized, visited))
  {
    if serialized != [] {
      var e, tail := serialized[0], serialized[1..];
      if e.collection == Groups || Key(e) in visited {
        RestDiffers(tail, visited);
      } else {
        RestDiffers(tail, visited + {Key(e)});
        forall f | f in Rest(tail, visited + {Key(e)})
          ensures Key(f) != Key(e)
        {
          RestListed(tail, visited + {Key(e)}, f);
        }
        KeysConcat([e], Rest(tail, visited + {Key(e)}));
      }
    }
  }

  lemma {:induction false} RestCovers(serialized: seq<Entry>, visited: set<string>, f: Entry) returns (g: Entry)
    requires Wanted(serialized, f) && Key(f) !in visited
    ensures g in Rest(serialized, visited) && Key(g) == Key(f)
  {
    var e, tail := serialized[0], serialized[1..];
    assert serialized == [e] + tail;
    if e.collection == Groups || Key(e) in visited {
      g := RestCovers(tail, visited, f);
    } else if Key(f) == Key(e) {
      g := e;
    } else {
      g := RestCovers(tail, visited + {Key(e)}, f);
    }
  }

  lemma ReadingParts(d: Document, indexed: Index, serialized: seq<Entry>)
    requires Keyed(indexed)
    ensures Faithful(indexed, Preorder(indexed, [d.body], Order([], {})))
  {
    PreorderFaithful(indexed, [d.body], Order([], {}));
  }

  lemma KeysDifferDistinct(r: seq<Entry>)
    requires KeysDiffer(r)
    ensures Distinct(r)
  {
  }

  /** No key is listed twice, whatever the document. */
  lemma ReadingKeysDiffer(indexed: Index, o: Order, serialized: seq<Entry>)
    requires Faithful(indexed, o)
    ensures KeysDiffer(o.ordered + Rest(serialized, o.visited))
  {
    RestDiffers(serialized, o.visited);
    forall e, f | e in o.ordered && f in Rest(serialized, o.visited) ensures Key(e) != Key(f) {
      RestListed(serialized, o.visited, f);
    }
    KeysConcat(o.ordered, Rest(serialized, o.visited));
  }

  lemma ApartListed(indexed: Index, o: Order, serialized: seq<Entry>, e: Entry)
    requires Faithful(indexed, o) && Indexes(indexed, serialized) && KeysApart(indexed, serialized, o.visited)
    requires Keyed(indexed)
    requires Wanted(serialized, e)
    ensures e in o.ordered + Rest(serialized, o.visited)
  {
    if Key(e) in o.visited {
      var f := indexed[Key(e)];
      assert Wanted(serialized, f) && Key(f) == Key(e);
      assert f in o.ordered;
    } else {
      var f := RestCovers(serialized, o.visited, e);
      RestListed(serialized, o.visited, f);
      assert f == e;
    }
  }

  lemma ListedWanted(indexed: Index, o: Order, serialized: seq<Entry>, e: Entry)
    requires Faithful(indexed, o) && Indexes(indexed, serialized) && e in o.ordered + Rest(serialized, o.visited)
    ensures Wanted(serialized, e)
    ensures Key(e) in o.visited ==> indexed[Key(e)] == e
  {
    if e in Rest(serialized, o.visited) { RestListed(serialized, o.visited, e); }
  }

  lemma OnceApart(indexed: Index, o: Order, serialized: seq<Entry>)
    requires Faithful(indexed, o) && Indexes(indexed, serialized)
    requires ListsEachOnce(o.ordered + Rest(serialized, o.visited), serialized)
    ensures KeysApart(indexed, serialized, o.visited)
  {
    var r := o.ordered + Rest(serialized, o.visited);
    ReadingKeysDiffer(indexed, o, serialized);
    forall e, f | Wanted(serialized, e) && Wanted(serialized, f) && Key(e) == Key(f) ensures e == f {
      assert e in r && f in r;
      var i :| 0 <= i < |r| && r[i] == e;
      var j :| 0 <= j < |r| && r[j] == f;
    }
    forall e | Wanted(serialized, e) && Key(e) in o.visited && Key(e) in indexed
      ensures indexed[Key(e)].collection != Groups
    {
      assert e in r;
      ListedWanted(indexed, o, serialized, e);
    }
  }

  lemma OrderOnce(d: Document, indexed: Index, o: Order)
    requires Indexes(indexed, Serialized(d)) && Keyed(indexed) && o == Preorder(indexed, [d.body], Order([], {}))
    ensures ListsEachOnce(Reading(d, indexed, Serialized(d)), Serialized(d)) <==>
      KeysApart(indexed, Serialized(d), o.visited)
  {
    var serialized := Serialized(d);
    ReadingParts(d, indexed, serialized);
    if KeysApart(indexed, serialized, o.visited) {
      ReadingKeysDiffer(indexed, o, serialized);
      KeysDifferDistinct(o.ordered + Rest(serialized, o.visited));
      forall e ensures e in Reading(d, indexed, serialized) <==> Wanted(serialized, e) {
        if Wanted(serialized, e) { ApartListed(indexed, o, serialized, e); }
        if e in Reading(d, indexed, serialized) { ListedWanted(indexed, o, serialized, e); }
      }
    }
    if ListsEachOnce(Reading(d, indexed, serialized), serialized) { OnceApart(indexed, o, serialized); }
  }

  /** The reading order lists every item that is not a group exactly once, exactly when the keys of
      those items differ from each other and from the keys of the groups reachable from the body in
      the reference graph. */
  lemma ReadingOnce(d: Document, indexed: Index, reachable: set<string>)
    requires Indexes(indexed, Serialized(d)) && Keyed(indexed)
    requires IsReachable(indexed, d.body, reachable)
    ensures ListsEachOnce(Reading(d, indexed, Serialized(d)), Serialized(d))
      <==> KeysApart(indexed, Serialized(d), reachable)
  {
    var o := Preorder(indexed, [d.body], Order([], {}));
    VisitedIsReachable(indexed, d.body);
    assert o.visited <= reachable && reachable <= o.visited;
    OrderOnce(d, indexed, o);
  }

  /** A document where a key collides: the first text refers to itself as the second one's place, and
      the second text has no reference of its own. The second text is never listed. */
  lemma CollisionDrops(text: Node, other: Node)
    requires text == Mapping(None, Some("#/texts/1"), []) && other == Mapping(None, None, [])
    ensures var d := Document(Leaf, Items([text, other]), Absent, Absent, Absent, Absent);
      var indexed := map["#/texts/1" := Entry(text, Texts, 0)];
      && Serialized(d) == [Entry(text, Texts, 0), Entry(other, Texts, 1)]
      && Indexes(indexed, Serialized(d)) && Keyed(indexed)
      && Reading(d, indexed, Serialized(d)) == [Entry(text, Texts, 0)]
  {
    var d := Document(Leaf, Items([text, other]), Absent, Absent, Absent, Absent);
    var a, b := Entry(text, Texts, 0), Entry(other, Texts, 1);
    var indexed: Index := map["#/texts/1" := a];
    CollidingEntries(text, other);
    assert Key(a) == "#/texts/1" && Key(b) == "#/texts/1";
    LeafPreorder(indexed, Order([], {}));
    assert [a, b][1..] == [b] && [b][1..] == [];
    assert Rest([b], {Key(a)}) == Rest([], {Key(a)});
    var none: set<string> := {};
    assert none + {Key(a)} == {Key(a)};
    assert Rest([a, b], none) == [a] + Rest([b], {Key(a)});
  }

  lemma CollidingEntries(text: Node, other: Node)
    requires text.Mapping? && other.Mapping?
    ensures Serialized(Document(Leaf, Items([text, other]), Absent, Absent, Absent, Absent))
         == [Entry(text, Texts, 0), Entry(other, Texts, 1)]
  {
    var d := Document(Leaf, Items([text, other]), Absent, Absent, Absent, Absent);
    var values := [text, other];
    EntriesSnoc(values, 0, Texts);
    EntriesSnoc(values, 1, Texts);
    assert values[..0] == [] && values[..2] == values;
    assert SerializedUpTo(d, 1) == [] + EntriesOf(values, Texts);
    assert SerializedUpTo(d, 2) == SerializedUpTo(d, 1) + [];
    assert SerializedUpTo(d, 3) == SerializedUpTo(d, 2) + [];
    assert SerializedUpTo(d, 4) == SerializedUpTo(d, 3) + [];
    assert SerializedUpTo(d, 5) == SerializedUpTo(d, 4) + [];
  }

  /** A document where a reachable group collides: it refers to itself as the place of the only text,
      which has no reference of its own. Nothing is listed. */
  lemma GroupCollisionDrops(body: Node, text: Node, group: Node)
    requires body == Mapping(None, None, [Mapping(Some("#/texts/0"), None, [])])
    requires text == Mapping(None, None, []) && group == Mapping(None, Some("#/texts/0"), [])
    ensures var d := Document(body, Items([text]), Absent, Absent, Absent, Items([group]));
      var indexed := map["#/texts/0" := Entry(group, Groups, 0)];
      && Serialized(d) == [Entry(text, Texts, 0), Entry(group, Groups, 0)]
      && Indexes(indexed, Serialized(d)) && Keyed(indexed)
      && IsReachable(indexed, body, {"#/texts/0"})
      && Reading(d, indexed, Serialized(d)) == []
  {
    var d := Document(body, Items([text]), Absent, Absent, Absent, Items([group]));
    var a, g := Entry(text, Texts, 0), Entry(group, Groups, 0);
    var indexed: Index := map["#/texts/0" := g];
    GroupEntries(body, text, group);
    assert Key(a) == "#/texts/0" && Key(g) == "#/texts/0";
    GroupPreorder(indexed, body, g);
    VisitedIsReachable(indexed, body);
    NothingLeft(a, g);
  }

  lemma NothingLeft(a: Entry, g: Entry)
    requires Key(a) == Key(g) && g.collection == Groups
    ensures Rest([a, g], {Key(g)}) == []
  {
    assert [a, g][1..] == [g] && [g][1..] == [];
    assert Rest([g], {Key(g)}) == Rest([], {Key(g)});
  }

  lemma GroupPreorder(indexed: Index, body: Node, g: Entry)
    requires body == Mapping(None, None, [Mapping(Some("#/texts/0"), None, [])])
    requires g == Entry(Mapping(None, Some("#/texts/0"), []), Groups, 0) && Key(g) == "#/texts/0"
    requires indexed == map["#/texts/0" := g] && Keyed(indexed)
    ensures Preorder(indexed, [body], Order([], {})) == Order([], {"#/texts/0"})
  {
    var link := Mapping(Some("#/texts/0"), None, []);
    var start, end := Order([], {}), Order([], {"#/texts/0"});
    assert [body][1..] == [] && ChildrenOf(body) + [] == [link] && [link][1..] == [];
    assert Preorder(indexed, [], end) == end;
    assert ChildrenOf(g.item) + [] == [];
    assert Resolve(indexed, link) == Some(g);
    var none: set<string> := {};
    assert none + {Key(g)} == {"#/texts/0"};
    assert Preorder(indexed, [link], start) == end;
    assert Resolve(indexed, body) == None;
  }

  lemma GroupEntries(body: Node, text: Node, group: Node)
    requires text.Mapping? && group.Mapping?
    ensures Serialized(Document(body, Items([text]), Absent, Absent, Absent, Items([group])))
         == [Entry(text, Texts, 0), Entry(group, Groups, 0)]
  {
    var d := Document(body, Items([text]), Absent, Absent, Absent, Items([group]));
    EntriesSnoc([text], 0, Texts);
    EntriesSnoc([group], 0, Groups);
    assert [text][..0] == [] && [text][..1] == [text] && [group][..0] == [] && [group][..1] == [group];
    assert SerializedUpTo(d, 1) == [] + EntriesOf([text], Texts);
    assert SerializedUpTo(d, 2) == SerializedUpTo(d, 1) + [];
    assert SerializedUpTo(d, 3) == SerializedUpTo(d, 2) + [];
    assert SerializedUpTo(d, 4) == SerializedUpTo(d, 3) + [];
    assert SerializedUpTo(d, 5) == SerializedUpTo(d, 4) + EntriesOf([group], Groups);
  }
}
