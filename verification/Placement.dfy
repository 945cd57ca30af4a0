/** Writing one group of elements, in a given order, back onto the positions it held in a
    list: the loop at the centre of same-box stabilization (backends.py). */
module Placement {
  import opened Common

  function Within<T(==)>(group: seq<T>): T -> bool {
    id => id in group
  }

  /** The group stands in its canonical order on exactly the positions it held. */
  ghost predicate GroupPlaced<T>(order: seq<T>, result: seq<T>, group: seq<T>) {
    && |result| == |order|
    && (forall p | 0 <= p < |order| :: order[p] in group <==> result[p] in group)
    && Filter(result, Within(group)) == group
  }

  // ----- placing one group

  function IndexesOf<T(==)>(order: seq<T>, group: seq<T>): (r: seq<nat>)
    requires forall id | id in group :: id in order
    ensures |r| == |group|
    ensures forall k | 0 <= k < |r| :: r[k] < |order| && order[r[k]] == group[k]
  {
    seq(|group|, k requires 0 <= k < |group| => assert group[k] in group; IndexOf(order, group[k]))
  }

  function NatLess(): (nat, nat) -> bool {
    (a, b) => a < b
  }

  /** The sorted positions are exactly where the group stands, strictly increasing. */
  lemma PositionsOf<T>(order: seq<T>, group: seq<T>) returns (positions: seq<nat>)
    requires Distinct(order) && Distinct(group)
    requires forall id | id in group :: id in order
    ensures positions == Sorted(IndexesOf(order, group), NatLess())
    ensures |positions| == |group|
    ensures forall k, l | 0 <= k < l < |positions| :: positions[k] < positions[l]
    ensures forall p | 0 <= p < |order| :: order[p] in group <==> p in positions
    ensures forall k | 0 <= k < |positions| :: positions[k] < |order|
  {
    var at := IndexesOf(order, group);
    positions := Sorted(at, NatLess());
    forall k, l | 0 <= k < l < |at| ensures at[k] != at[l] { assert group[k] != group[l]; }
    MultisetDistinct(at, positions);
    SortedAscends(at, NatLess());
    forall k, l | 0 <= k < l < |positions| ensures positions[k] < positions[l] {
      assert !NatLess()(positions[l], positions[k]) && positions[k] != positions[l];
    }
    assert forall p :: p in at <==> p in Elements(at);
    assert forall p :: p in positions <==> p in Elements(positions);
    forall p | 0 <= p < |order| ensures order[p] in group <==> p in positions {
      if order[p] in group {
        var k :| 0 <= k < |group| && group[k] == order[p];
        assert order[at[k]] == order[p] && at[k] == p;
      }
    }
    forall k | 0 <= k < |positions| ensures positions[k] < |order| { assert positions[k] in at; }
  }

  method PlaceGroup<T(==)>(order: seq<T>, group: seq<T>) returns (result: seq<T>)
    requires Distinct(order) && Distinct(group)
    requires forall id | id in group :: id in order
    ensures GroupPlaced(order, result, group)
    ensures forall p | 0 <= p < |order| && order[p] !in group :: result[p] == order[p]
    ensures Distinct(result) && Elements(result) == Elements(order)
  {
    var positions := Sorted(IndexesOf(order, group), NatLess());
    ghost var at := PositionsOf(order, group);
    result := order;
    for k := 0 to |group|
      invariant |result| == |order|
      invariant Overwritten(order, group, positions, k, result)
    {
      OverwriteNext(order, group, positions, k, result);
      result := result[positions[k] := group[k]];
    }
    PlacedResult(order, group, positions, result);
  }

  lemma OverwriteNext<T>(order: seq<T>, group: seq<T>, positions: seq<nat>, k: nat, result: seq<T>)
    requires |result| == |order| && k < |positions| == |group|
    requires forall i, j | 0 <= i < j < |positions| :: positions[i] < positions[j]
    requires forall i | 0 <= i < |positions| :: positions[i] < |order|
    requires Overwritten(order, group, positions, k, result)
    ensures Overwritten(order, group, positions, k + 1, result[positions[k] := group[k]])
  {
    var next := result[positions[k] := group[k]];
    forall p | 0 <= p < |order|
      ensures next[p] == order[p] || exists i | 0 <= i < k + 1 :: positions[i] == p
    {
      if p != positions[k] { assert next[p] == result[p]; }
    }
  }

  lemma PlacedResult<T>(order: seq<T>, group: seq<T>, positions: seq<nat>, result: seq<T>)
    requires Distinct(order) && Distinct(group) && |positions| == |group| && |result| == |order|
    requires forall k, l | 0 <= k < l < |positions| :: positions[k] < positions[l]
    requires forall p | 0 <= p < |order| :: order[p] in group <==> p in positions
    requires forall id | id in group :: id in order
    requires Overwritten(order, group, positions, |group|, result)
    ensures GroupPlaced(order, result, group)
    ensures forall p | 0 <= p < |order| && order[p] !in group :: result[p] == order[p]
    ensures Distinct(result) && Elements(result) == Elements(order)
  {
    PlacedDistinct(order, group, positions, result);
    PlacedWhole(order, group, positions, result);
    forall p | 0 <= p < |result| ensures result[p] in order {
      if order[p] in group { assert result[p] in group; }
    }
    DrawnWhole(order, result);
  }

  /** The first `k` positions hold the first `k` group members; every other one is as before. */
  ghost predicate Overwritten<T>(order: seq<T>, group: seq<T>, positions: seq<nat>, k: nat, result: seq<T>)
    requires |result| == |order| && k <= |positions| == |group|
  {
    && (forall i | 0 <= i < k :: positions[i] < |order| && result[positions[i]] == group[i])
    && (forall p | 0 <= p < |order| :: result[p] == order[p] || exists i | 0 <= i < k :: positions[i] == p)
  }

  lemma PlacedDistinct<T>(order: seq<T>, group: seq<T>, positions: seq<nat>, result: seq<T>)
    requires Distinct(order) && Distinct(group) && |positions| == |group| && |result| == |order|
    requires forall p | 0 <= p < |order| :: order[p] in group <==> p in positions
    requires Overwritten(order, group, positions, |group|, result)
    ensures forall p | 0 <= p < |order| && order[p] !in group :: result[p] == order[p]
    ensures forall p | 0 <= p < |order| :: order[p] in group <==> result[p] in group
    ensures Distinct(result)
  {
    forall p | 0 <= p < |order| ensures order[p] in group <==> result[p] in group {
      if p in positions {
        var i :| 0 <= i < |positions| && positions[i] == p;
        assert result[p] == group[i];
      }
    }
    forall i, j | 0 <= i < j < |result| ensures result[i] != result[j] {
      if order[i] in group && order[j] in group {
        var k :| 0 <= k < |positions| && positions[k] == i;
        var l :| 0 <= l < |positions| && positions[l] == j;
        assert group[k] != group[l];
      }
    }
  }

  lemma PlacedWhole<T>(order: seq<T>, group: seq<T>, positions: seq<nat>, result: seq<T>)
    requires |positions| == |group| && |result| == |order|
    requires forall k, l | 0 <= k < l < |positions| :: positions[k] < positions[l]
    requires forall p | 0 <= p < |order| :: order[p] in group <==> p in positions
    requires forall p | 0 <= p < |order| :: order[p] in group <==> result[p] in group
    requires Overwritten(order, group, positions, |group|, result)
    ensures Filter(result, Within(group)) == group
  {
    var within := Within(group);
    forall k | 0 <= k < |positions| ensures positions[k] < |result| && within(result[positions[k]]) {
      assert result[positions[k]] == group[k];
    }
    FilterAscending(result, within, positions, |result|, |positions|);
    assert result[..|result|] == result;
  }

  /** Equally long, duplicate-free and drawn from the same list: a permutation of it. */
  lemma DrawnWhole<T>(order: seq<T>, result: seq<T>)
    requires Distinct(order) && Distinct(result) && |result| == |order|
    requires forall p | 0 <= p < |result| :: result[p] in order
    ensures Elements(result) == Elements(order)
  {
    DistinctCount(result);
    DistinctCount(order);
    SubsetCard(Elements(result), Elements(order));
  }

  /** Placing a disjoint group leaves an earlier group where it was put. */
  lemma PlacedSurvives<T>(order: seq<T>, before: seq<T>, after: seq<T>, earlier: seq<T>, group: seq<T>)
    requires GroupPlaced(order, before, earlier)
    requires GroupPlaced(before, after, group)
    requires forall p | 0 <= p < |before| && before[p] !in group :: after[p] == before[p]
    requires forall id | id in earlier :: id !in group
    ensures GroupPlaced(order, after, earlier)
  {
    forall p | 0 <= p < |before|
      ensures before[p] in earlier <==> after[p] in earlier
      ensures before[p] in earlier ==> after[p] == before[p]
    {
      if before[p] in group { assert after[p] in group; }
    }
    FilterPositional(before, after, Within(earlier));
  }

  /** Before a group is placed, earlier placements have not moved it. */
  lemma PlacedComposes<T>(order: seq<T>, before: seq<T>, after: seq<T>, group: seq<T>)
    requires |before| == |order| && forall p | 0 <= p < |order| :: order[p] in group <==> before[p] in group
    requires GroupPlaced(before, after, group)
    ensures GroupPlaced(order, after, group)
  {
  }

  // ----- placing every group

  ghost predicate Apart<T>(groups: seq<seq<T>>) {
    forall i, j | 0 <= i < j < |groups| :: ApartFrom(groups[i], groups[j])
  }

  ghost predicate ApartFrom<T>(a: seq<T>, b: seq<T>) {
    forall id | id in a :: id !in b
  }

  ghost predicate HeldAlike<T>(order: seq<T>, result: seq<T>, group: seq<T>)
    requires |result| == |order|
  {
    forall p | 0 <= p < |order| :: order[p] in group <==> result[p] in group
  }

  ghost predicate InNone<T>(x: T, groups: seq<seq<T>>, n: nat)
    requires n <= |groups|
  {
    forall j | 0 <= j < n :: x !in groups[j]
  }

  /** The first `n` groups are placed; the others stand where they stood, like everything else. */
  ghost predicate Placing<T>(order: seq<T>, groups: seq<seq<T>>, n: nat, result: seq<T>)
    requires n <= |groups|
  {
    && |result| == |order| && Distinct(result) && Elements(result) == Elements(order)
    && (forall j | 0 <= j < n :: GroupPlaced(order, result, groups[j]))
    && (forall j | n <= j < |groups| :: HeldAlike(order, result, groups[j]))
    && forall p | 0 <= p < |order| && InNone(order[p], groups, n) :: result[p] == order[p]
  }

  lemma HeldNext<T>(order: seq<T>, before: seq<T>, after: seq<T>, group: seq<T>, later: seq<T>)
    requires |before| == |order| == |after| && HeldAlike(order, before, later) && GroupPlaced(before, after, group)
    requires forall p | 0 <= p < |before| && before[p] !in group :: after[p] == before[p]
    requires ApartFrom(group, later)
    ensures HeldAlike(order, after, later)
  {
    forall p | 0 <= p < |order| ensures order[p] in later <==> after[p] in later {
      if before[p] in group { assert after[p] in group; }
    }
  }

  lemma UntouchedNext<T>(order: seq<T>, groups: seq<seq<T>>, n: nat, before: seq<T>, after: seq<T>, p: nat)
    requires n < |groups| && |before| == |order| == |after| && p < |order| && InNone(order[p], groups, n + 1)
    requires InNone(order[p], groups, n) ==> before[p] == order[p]
    requires before[p] !in groups[n] ==> after[p] == before[p]
    ensures after[p] == order[p]
  {
    assert order[p] !in groups[n];
  }

  lemma PlacingNext<T>(order: seq<T>, groups: seq<seq<T>>, n: nat, before: seq<T>, after: seq<T>)
    requires n < |groups| && Apart(groups) && Placing(order, groups, n, before)
    requires GroupPlaced(before, after, groups[n]) && Distinct(after) && Elements(after) == Elements(before)
    requires forall p | 0 <= p < |before| && before[p] !in groups[n] :: after[p] == before[p]
    ensures Placing(order, groups, n + 1, after)
  {
    assert HeldAlike(order, before, groups[n]);
    PlacedComposes(order, before, after, groups[n]);
    forall j | 0 <= j < n ensures GroupPlaced(order, after, groups[j]) {
      assert ApartFrom(groups[j], groups[n]);
      PlacedSurvives(order, before, after, groups[j], groups[n]);
    }
    forall j | n + 1 <= j < |groups| ensures HeldAlike(order, after, groups[j]) {
      assert ApartFrom(groups[n], groups[j]);
      HeldNext(order, before, after, groups[n], groups[j]);
    }
    forall p | 0 <= p < |order| && InNone(order[p], groups, n + 1) ensures after[p] == order[p] {
      UntouchedNext(order, groups, n, before, after, p);
    }
  }

  lemma StillPresent<T>(order: seq<T>, result: seq<T>, group: seq<T>)
    requires Elements(result) == Elements(order) && forall id | id in group :: id in order
    ensures forall id | id in group :: id in result
  {
    forall id | id in group ensures id in result { assert id in Elements(order) && id in Elements(result); }
  }

  /** The loop over the groups. */
  method PlaceGroups<T(==)>(order: seq<T>, groups: seq<seq<T>>) returns (result: seq<T>)
    requires Distinct(order) && Apart(groups)
    requires forall i | 0 <= i < |groups| :: Distinct(groups[i]) && forall id | id in groups[i] :: id in order
    ensures Placing(order, groups, |groups|, result)
  {
    result := order;
    for i := 0 to |groups|
      invariant Placing(order, groups, i, result)
    {
      StillPresent(order, result, groups[i]);
      var next := PlaceGroup(result, groups[i]);
      PlacingNext(order, groups, i, result, next);
      result := next;
    }
  }
}
