/** What the parts of the reading order mean (restructure.py): which items there are, what a reference
    names, in which order unreached items follow, and when the walk exceeds its limits. */
module ReadingMeaning {
  import opened Common
  import opened Digest
  import opened ReadingOrder
  import opened ReadingReach

  // ----- the serialized items

  /** The order in which the collections are read. */
  function Place(name: CollectionName): nat {
    match name
    case Texts => 0
    case Tables => 1
    case Pictures => 2
    case KeyValueItems => 3
    case Groups => 4
  }

  predicate Precedes(e: Entry, f: Entry) {
    Place(e.collection) < Place(f.collection) || (e.collection == f.collection && e.index < f.index)
  }

  /** The entry is a mapping of the document, at its place. */
  predicate IsItem(d: Document, e: Entry) {
    var c := CollectionOf(d, e.collection);
    c.Items? && e.index < |c.values| && c.values[e.index] == e.item && e.item.Mapping?
  }

  ghost predicate InOrder(entries: seq<Entry>) {
    forall i, j | 0 <= i < j < |entries| :: Precedes(entries[i], entries[j])
  }

  /** A mapping of the list, at its place. */
  predicate ListedAt(values: seq<Node>, name: CollectionName, e: Entry) {
    e.collection == name && e.index < |values| && values[e.index] == e.item && e.item.Mapping?
  }

  ghost predicate ListsMappings(values: seq<Node>, name: CollectionName, entries: seq<Entry>) {
    InOrder(entries) && forall e :: e in entries <==> ListedAt(values, name, e)
  }

  lemma MappingsSnoc(values: seq<Node>, name: CollectionName, entries: seq<Entry>, value: Node)
    requires ListsMappings(values, name, entries)
    ensures ListsMappings(values + [value], name,
              entries + if value.Mapping? then [Entry(value, name, |values|)] else [])
  {
    var longer := values + [value];
    var last := Entry(value, name, |values|);
    var all := entries + if value.Mapping? then [last] else [];
    forall e ensures e in all <==> ListedAt(longer, name, e) {
      assert e in all <==> e in entries || (value.Mapping? && e == last);
    }
    forall i, j | 0 <= i < j < |all| ensures Precedes(all[i], all[j]) {
      if j < |entries| {
        assert Precedes(entries[i], entries[j]);
      } else {
        assert entries[i] in entries && ListedAt(values, name, entries[i]);
      }
    }
  }

  lemma {:induction false} EntriesMeaning(values: seq<Node>, name: CollectionName)
    ensures ListsMappings(values, name, EntriesOf(values, name))
  {
    if values != [] {
      var n := |values| - 1;
      EntriesMeaning(values[..n], name);
      MappingsSnoc(values[..n], name, EntriesOf(values[..n], name), values[n]);
      assert values == values[..n] + [values[n]];
    }
  }

  lemma InOrderJoin(a: seq<Entry>, b: seq<Entry>)
    requires InOrder(a) && InOrder(b) && forall e, f | e in a && f in b :: Precedes(e, f)
    ensures InOrder(a + b)
  {
    forall i, j | 0 <= i < j < |a + b| ensures Precedes((a + b)[i], (a + b)[j]) {
      if j < |a| {
        assert Precedes(a[i], a[j]);
      } else if i < |a| {
        assert a[i] in a && b[j - |a|] in b;
      } else {
        assert Precedes(b[i - |a|], b[j - |a|]);
      }
    }
  }

  lemma CollectionMeaning(d: Document, name: CollectionName)
    ensures InOrder(EntriesIn(CollectionOf(d, name), name))
    ensures forall e :: e in EntriesIn(CollectionOf(d, name), name) <==> e.collection == name && IsItem(d, e)
  {
    if CollectionOf(d, name).Items? { EntriesMeaning(CollectionOf(d, name).values, name); }
  }

  lemma {:induction false} SerializedUpToMeaning(d: Document, n: nat)
    requires n <= |NAMES|
    ensures InOrder(SerializedUpTo(d, n))
    ensures forall e :: e in SerializedUpTo(d, n) <==> Place(e.collection) < n && IsItem(d, e)
  {
    if n > 0 {
      var name := NAMES[n - 1];
      assert Place(name) == n - 1;
      SerializedUpToMeaning(d, n - 1);
      CollectionMeaning(d, name);
      InOrderJoin(SerializedUpTo(d, n - 1), EntriesIn(CollectionOf(d, name), name));
      assert forall other :: Place(other) == n - 1 <==> other == name;
    }
  }

  /** The serialized items are the document's mappings, collection by collection, each in list order. */
  lemma SerializedMeaning(d: Document)
    ensures InOrder(Serialized(d)) && forall e :: e in Serialized(d) <==> IsItem(d, e)
  {
    SerializedUpToMeaning(d, |NAMES|);
  }

  // ----- references

  /** The item's own reference is this one. */
  predicate Named(entries: seq<Entry>, reference: Option<string>, e: Entry) {
    e in entries && e.item.Mapping? && reference.Some? && e.item.selfRef == reference && IsReference(reference.value)
  }

  function RefOf(value: Node): Option<string> {
    if value.Mapping? then value.reference else None
  }

  /** A value stands for the item its `$ref` names; only if there is none, for the item its own
      `self_ref` names; otherwise for no item. */
  lemma ResolveMeaning(indexed: Index, entries: seq<Entry>, value: Node)
    requires Indexes(indexed, entries)
    ensures forall e | Named(entries, RefOf(value), e) :: Resolve(indexed, value) == Some(e)
    ensures (forall e :: !Named(entries, RefOf(value), e)) ==>
      forall e | Named(entries, SelfRefOf(value), e) :: Resolve(indexed, value) == Some(e)
    ensures (forall e :: !Named(entries, RefOf(value), e)) && (forall e :: !Named(entries, SelfRefOf(value), e)) ==>
      Resolve(indexed, value) == None
  {
    forall r: string ensures r in indexed ==> Named(entries, Some(r), indexed[r]) {
      if r in indexed { assert Referable(indexed[r]); }
    }
    forall r: Option<string>, e | Named(entries, r, e) ensures r.value in indexed && indexed[r.value] == e {
      assert Referable(e);
    }
  }

  // ----- the unreached items

  /** Position `k` holds the first item of its key that is no group and was not visited. */
  predicate Unreached(serialized: seq<Entry>, visited: set<string>, k: nat) {
    && k < |serialized| && serialized[k].collection != Groups && Key(serialized[k]) !in visited
    && forall j | 0 <= j < k && serialized[j].collection != Groups :: Key(serialized[j]) != Key(serialized[k])
  }

  ghost predicate PlacesOf(serialized: seq<Entry>, visited: set<string>, r: seq<Entry>, places: seq<nat>) {
    && |places| == |r|
    && (forall i | 0 <= i < |r| :: Unreached(serialized, visited, places[i]) && r[i] == serialized[places[i]])
    && (forall i, j | 0 <= i < j < |places| :: places[i] < places[j])
    && forall k: nat | Unreached(serialized, visited, k) :: k in places
  }

  /** Unreached items follow in document order. */
  lemma {:induction false} RestMeaning(serialized: seq<Entry>, visited: set<string>) returns (places: seq<nat>)
    ensures PlacesOf(serialized, visited, Rest(serialized, visited), places)
  {
    if serialized == [] {
      places := [];
    } else {
      var e, tail := serialized[0], serialized[1..];
      if e.collection == Groups || Key(e) in visited {
        var rest := RestMeaning(tail, visited);
        places := seq(|rest|, i requires 0 <= i < |rest| => rest[i] + 1);
        SkippedPlaces(serialized, visited, Rest(tail, visited), rest, places);
      } else {
        var rest := RestMeaning(tail, visited + {Key(e)});
        var later := seq(|rest|, i requires 0 <= i < |rest| => rest[i] + 1);
        places := [0] + later;
        TakenPlaces(serialized, visited, Rest(tail, visited + {Key(e)}), rest, later);
      }
    }
  }

  lemma UnreachedLater(serialized: seq<Entry>, visited: set<string>, k: nat)
    requires serialized != []
    ensures var e, tail := serialized[0], serialized[1..];
      if e.collection == Groups || Key(e) in visited
      then Unreached(serialized, visited, k + 1) <==> Unreached(tail, visited, k)
      else Unreached(serialized, visited, k + 1) <==> Unreached(tail, visited + {Key(e)}, k)
  {
    var e, tail := serialized[0], serialized[1..];
    assert forall j | 0 <= j < |tail| :: tail[j] == serialized[j + 1];
    var known := if e.collection == Groups || Key(e) in visited then visited else visited + {Key(e)};
    if k < |tail| && Unreached(tail, known, k) {
      forall j | 0 <= j < k + 1 && serialized[j].collection != Groups
        ensures Key(serialized[j]) != Key(serialized[k + 1])
      {
        if j > 0 { assert tail[j - 1] == serialized[j]; }
      }
    }
    if k < |tail| && Unreached(serialized, visited, k + 1) {
      forall j | 0 <= j < k && tail[j].collection != Groups ensures Key(tail[j]) != Key(tail[k]) {
        assert serialized[j + 1] == tail[j];
      }
    }
  }

  lemma SkippedPlaces(
    serialized: seq<Entry>, visited: set<string>, r: seq<Entry>, rest: seq<nat>, places: seq<nat>)
    requires serialized != [] && (serialized[0].collection == Groups || Key(serialized[0]) in visited)
    requires PlacesOf(serialized[1..], visited, r, rest)
    requires |places| == |rest| && forall i | 0 <= i < |rest| :: places[i] == rest[i] + 1
    ensures PlacesOf(serialized, visited, r, places)
  {
    forall i | 0 <= i < |r| ensures Unreached(serialized, visited, places[i]) && r[i] == serialized[places[i]] {
      UnreachedLater(serialized, visited, rest[i]);
    }
    forall k: nat | Unreached(serialized, visited, k) ensures k in places {
      if k > 0 {
        UnreachedLater(serialized, visited, k - 1);
        var i :| 0 <= i < |rest| && rest[i] == k - 1;
        assert places[i] == k;
      }
    }
  }

  /** Each listed item stands at its place. */
  ghost predicate StandAt(serialized: seq<Entry>, visited: set<string>, r: seq<Entry>, places: seq<nat>) {
    |places| == |r| &&
    forall i | 0 <= i < |r| :: Unreached(serialized, visited, places[i]) && r[i] == serialized[places[i]]
  }

  lemma LaterStand(
    serialized: seq<Entry>, visited: set<string>, r: seq<Entry>, rest: seq<nat>, later: seq<nat>)
    requires serialized != [] && serialized[0].collection != Groups && Key(serialized[0]) !in visited
    requires StandAt(serialized[1..], visited + {Key(serialized[0])}, r, rest)
    requires |later| == |rest| && forall i | 0 <= i < |rest| :: later[i] == rest[i] + 1
    ensures StandAt(serialized, visited, r, later)
  {
    forall i | 0 <= i < |r| ensures Unreached(serialized, visited, later[i]) && r[i] == serialized[later[i]] {
      UnreachedLater(serialized, visited, rest[i]);
    }
  }

  lemma LaterCovers(serialized: seq<Entry>, visited: set<string>, rest: seq<nat>, later: seq<nat>, k: nat)
    requires serialized != [] && serialized[0].collection != Groups && Key(serialized[0]) !in visited
    requires forall m: nat | Unreached(serialized[1..], visited + {Key(serialized[0])}, m) :: m in rest
    requires |later| == |rest| && forall i | 0 <= i < |rest| :: later[i] == rest[i] + 1
    requires k > 0 && Unreached(serialized, visited, k)
    ensures k in later
  {
    var m: nat := k - 1;
    UnreachedLater(serialized, visited, m);
    var i :| 0 <= i < |rest| && rest[i] == m;
    assert later[i] == k;
  }

  lemma FrontStands(serialized: seq<Entry>, visited: set<string>, r: seq<Entry>, later: seq<nat>)
    requires serialized != [] && Unreached(serialized, visited, 0) && StandAt(serialized, visited, r, later)
    ensures StandAt(serialized, visited, [serialized[0]] + r, [0] + later)
  {
  }

  lemma FrontAscends(later: seq<nat>)
    requires forall i, j | 0 <= i < j < |later| :: later[i] < later[j]
    requires forall i | 0 <= i < |later| :: later[i] > 0
    ensures var places := [0] + later; forall i, j | 0 <= i < j < |places| :: places[i] < places[j]
  {
  }

  lemma TakenPlaces(
    serialized: seq<Entry>, visited: set<string>, r: seq<Entry>, rest: seq<nat>, later: seq<nat>)
    requires serialized != [] && serialized[0].collection != Groups && Key(serialized[0]) !in visited
    requires PlacesOf(serialized[1..], visited + {Key(serialized[0])}, r, rest)
    requires |later| == |rest| && forall i | 0 <= i < |rest| :: later[i] == rest[i] + 1
    ensures PlacesOf(serialized, visited, [serialized[0]] + r, [0] + later)
  {
    LaterStand(serialized, visited, r, rest, later);
    FrontStands(serialized, visited, r, later);
    FrontAscends(later);
    forall k: nat | Unreached(serialized, visited, k) ensures k in [0] + later {
      if k > 0 { LaterCovers(serialized, visited, rest, later, k); }
    }
  }

  // ----- the limits

  /** How many values an unbounded walk takes, and the depth of the deepest. */
  datatype Cost = Cost(taken: nat, deepest: nat)

  function Deeper(values: seq<Node>, depth: nat): (r: seq<(Node, nat)>)
    ensures |r| == |values|
  {
    seq(|values|, i requires 0 <= i < |values| => (values[i], depth))
  }

  function NodesOf(stack: seq<(Node, nat)>): (r: seq<Node>)
    ensures |r| == |stack|
  {
    seq(|stack|, i requires 0 <= i < |stack| => stack[i].0)
  }

  lemma NodesDeeper(values: seq<Node>, depth: nat, rest: seq<(Node, nat)>)
    ensures NodesOf(Deeper(values, depth) + rest) == values + NodesOf(rest)
  {
  }

  lemma NodesTail(stack: seq<(Node, nat)>)
    requires stack != []
    ensures NodesOf(stack) == [stack[0].0] + NodesOf(stack[1..])
  {
  }

  lemma Smaller(stack: seq<(Node, nat)>, depth: nat)
    requires stack != []
    ensures Sizes(NodesOf(stack[1..])) < Sizes(NodesOf(stack))
    ensures Sizes(NodesOf(Deeper(ChildrenOf(stack[0].0), depth) + stack[1..])) < Sizes(NodesOf(stack))
  {
    var value, rest := stack[0].0, stack[1..];
    NodesTail(stack);
    SizesConcat([value], NodesOf(rest));
    SingleSize(value);
    ChildrenSmaller(value);
    NodesDeeper(ChildrenOf(value), depth, rest);
    SizesConcat(ChildrenOf(value), NodesOf(rest));
  }

  lemma SingleSize(value: Node)
    ensures Sizes([value]) == Size(value) > 0
  {
    assert [value][1..] == [];
  }

  /** The stack and the visited keys after the first value is taken. */
  function Taken(indexed: Index, stack: seq<(Node, nat)>, visited: set<string>): (seq<(Node, nat)>, set<string>)
    requires stack != []
  {
    var value, depth, rest := stack[0].0, stack[0].1, stack[1..];
    var entry := Resolve(indexed, value);
    if entry.None? then (Deeper(ChildrenOf(value), depth + 1) + rest, visited)
    else if Key(entry.value) in visited then (rest, visited)
    else (Deeper(ChildrenOf(entry.value.item), depth + 1) + rest, visited + {Key(entry.value)})
  }

  /** The walk stands before an item it has not visited. */
  predicate Opens(indexed: Index, value: Node, visited: set<string>) {
    Resolve(indexed, value).Some? && Key(Resolve(indexed, value).value) !in visited
  }

  lemma OpenedShrinks(indexed: Index, value: Node, visited: set<string>)
    requires Keyed(indexed) && Opens(indexed, value, visited)
    ensures var k := Key(Resolve(indexed, value).value);
      |indexed.Keys - (visited + {k})| < |indexed.Keys - visited|
  {
    ResolvedKey(indexed, value);
    VisitShrinks(indexed, visited, Resolve(indexed, value).value);
  }

  lemma TakenOpens(indexed: Index, stack: seq<(Node, nat)>, visited: set<string>)
    requires stack != []
    ensures var t := Taken(indexed, stack, visited);
      if Opens(indexed, stack[0].0, visited) then t.1 == visited + {Key(Resolve(indexed, stack[0].0).value)}
      else t.1 == visited && Sizes(NodesOf(t.0)) < Sizes(NodesOf(stack))
  {
    Smaller(stack, stack[0].1 + 1);
  }

  lemma TakenShrinks(indexed: Index, stack: seq<(Node, nat)>, visited: set<string>)
    requires Keyed(indexed) && stack != []
    ensures var t := Taken(indexed, stack, visited);
      || |indexed.Keys - t.1| < |indexed.Keys - visited|
      || (t.1 == visited && Sizes(NodesOf(t.0)) < Sizes(NodesOf(stack)))
  {
    TakenOpens(indexed, stack, visited);
    if Opens(indexed, stack[0].0, visited) { OpenedShrinks(indexed, stack[0].0, visited); }
  }

  /** The cost of walking a stack of values with their depths, without limits. */
  function CostOf(indexed: Index, stack: seq<(Node, nat)>, visited: set<string>): Cost
    requires Keyed(indexed)
    decreases |indexed.Keys - visited|, Sizes(NodesOf(stack))
  {
    if stack == [] then Cost(0, 0)
    else
      var t := Taken(indexed, stack, visited);
      TakenShrinks(indexed, stack, visited);
      var more := CostOf(indexed, t.0, t.1);
      Cost(more.taken + 1, if stack[0].1 < more.deepest then more.deepest else stack[0].1)
  }

  /** The walk from `w` to `u` has paid for the front of the stack. */
  ghost predicate Paid(indexed: Index, whole: Cost, rest: seq<(Node, nat)>, w: Walk, u: Walk, limit: nat)
    requires Keyed(indexed)
  {
    var after := CostOf(indexed, rest, u.visited);
    && whole.taken + w.traversed == u.traversed + after.taken && u.traversed <= limit
    && (whole.deepest <= MAX_DEPTH <==> after.deepest <= MAX_DEPTH)
  }

  ghost predicate Exceeds(whole: Cost, w: Walk, limit: nat) {
    whole.deepest > MAX_DEPTH || w.traversed + whole.taken > limit
  }

  lemma CostHead(indexed: Index, value: Node, depth: nat, rest: seq<(Node, nat)>, visited: set<string>)
    requires Keyed(indexed)
    ensures var stack := [(value, depth)] + rest;
      var whole, t := CostOf(indexed, stack, visited), Taken(indexed, stack, visited);
      var more := CostOf(indexed, t.0, t.1);
      whole.taken == more.taken + 1 && (whole.deepest <= MAX_DEPTH <==> depth <= MAX_DEPTH && more.deepest <= MAX_DEPTH)
  {
  }

  lemma TakenHead(indexed: Index, value: Node, depth: nat, rest: seq<(Node, nat)>, visited: set<string>)
    ensures var t := Taken(indexed, [(value, depth)] + rest, visited);
      var entry := Resolve(indexed, value);
      t == if entry.None? then (Deeper(ChildrenOf(value), depth + 1) + rest, visited)
           else if Key(entry.value) in visited then (rest, visited)
           else (Deeper(ChildrenOf(entry.value.item), depth + 1) + rest, visited + {Key(entry.value)})
  {
    var stack := [(value, depth)] + rest;
    assert stack[0] == (value, depth) && stack[1..] == rest;
  }

  lemma {:induction false} WalkCost(
    indexed: Index, limit: nat, value: Node, depth: nat, w: Walk, rest: seq<(Node, nat)>)
    requires Keyed(indexed) && depth <= MAX_DEPTH + 1
    ensures var whole := CostOf(indexed, [(value, depth)] + rest, w.visited);
      var u := WalkFrom(indexed, limit, value, depth, w);
      if u.Some? then Paid(indexed, whole, rest, w, u.value, limit) else Exceeds(whole, w, limit)
    decreases MAX_DEPTH + 1 - depth, 0, 1
  {
    CostHead(indexed, value, depth, rest, w.visited);
    TakenHead(indexed, value, depth, rest, w.visited);
    var next := w.(traversed := w.traversed + 1);
    if next.traversed <= limit && depth <= MAX_DEPTH { TakenCost(indexed, limit, value, depth, w, rest); }
  }

  lemma EnteredWalk(w: Walk, e: Entry)
    ensures Enter(w, e).visited == w.visited + {Key(e)} && Enter(w, e).traversed == w.traversed
  {
  }

  /** The walk goes on with what is below the value, or with nothing when its item was visited. */
  lemma {:induction false} TakenCost(
    indexed: Index, limit: nat, value: Node, depth: nat, w: Walk, rest: seq<(Node, nat)>)
    requires Keyed(indexed) && depth <= MAX_DEPTH && w.traversed + 1 <= limit
    ensures var next := w.(traversed := w.traversed + 1);
      var t := Taken(indexed, [(value, depth)] + rest, w.visited);
      var more := CostOf(indexed, t.0, t.1);
      var u := WalkFrom(indexed, limit, value, depth, w);
      if u.Some? then Paid(indexed, more, rest, next, u.value, limit) else Exceeds(more, next, limit)
    decreases MAX_DEPTH + 1 - depth, 0, 0
  {
    TakenHead(indexed, value, depth, rest, w.visited);
    var next := w.(traversed := w.traversed + 1);
    match Resolve(indexed, value)
    case None =>
      WalkAllCost(indexed, limit, ChildrenOf(value), depth + 1, next, rest);
    case Some(e) =>
      var k := Key(e);
      if k !in next.visited {
        EnteredWalk(next, e);
        WalkAllCost(indexed, limit, ChildrenOf(e.item), depth + 1, Enter(next, e), rest);
      }
  }

  lemma {:induction false} WalkAllCost(
    indexed: Index, limit: nat, values: seq<Node>, depth: nat, w: Walk, rest: seq<(Node, nat)>)
    requires Keyed(indexed) && depth <= MAX_DEPTH + 1 && w.traversed <= limit
    ensures var whole := CostOf(indexed, Deeper(values, depth) + rest, w.visited);
      var u := WalkAll(indexed, limit, values, depth, w);
      if u.Some? then Paid(indexed, whole, rest, w, u.value, limit) else Exceeds(whole, w, limit)
    decreases MAX_DEPTH + 1 - depth, |values| + 1, 0
  {
    if values == [] {
      assert Deeper(values, depth) + rest == rest;
    } else {
      var later := Deeper(values[1..], depth) + rest;
      assert Deeper(values, depth) + rest == [(values[0], depth)] + later;
      WalkCost(indexed, limit, values[0], depth, w, later);
      var first := WalkFrom(indexed, limit, values[0], depth, w);
      if first.Some? { WalkAllCost(indexed, limit, values[1..], depth, first.value, rest); }
    }
  }

  /** The reading order exists exactly when the unbounded walk takes at most eight values for each allowed
      block and goes at most 64 levels deep. */
  lemma ReadingLimits(d: Document, indexed: Index, maxBlocks: nat)
    requires Keyed(indexed)
    ensures var cost := CostOf(indexed, [(d.body, 0)], {});
      BodyWalk(d, indexed, maxBlocks).Some? <==>
        d.body.Leaf? || (cost.taken <= maxBlocks * 8 && cost.deepest <= 64)
  {
    assert [(d.body, 0)] + [] == [(d.body, 0)];
    WalkCost(indexed, maxBlocks * 8, d.body, 0, Walk([], {}, 0), []);
  }
}
