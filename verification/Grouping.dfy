/** The greedy grouping loop with carried overlap at the centre of `chunk_blocks`
    (chunking.py), over pieces of any kind: a piece has a length, and `related` says that two
    neighbouring pieces share a section and are compatible. */
module Grouping {
  import opened Common

  const DELIMITER := 2

  function Total<T>(values: seq<T>, len: T -> nat): nat {
    if values == [] then 0 else len(values[0]) + Total(values[1..], len)
  }

  /** `_joined_length`: the pieces' lengths and a two-character delimiter between neighbours. */
  function JoinedLength<T>(values: seq<T>, len: T -> nat): nat {
    Total(values, len) + (if |values| == 0 then 0 else |values| - 1) * DELIMITER
  }

  lemma {:induction false} TotalConcat<T>(a: seq<T>, b: seq<T>, len: T -> nat)
    ensures Total(a + b, len) == Total(a, len) + Total(b, len)
  {
    if a == [] {
      assert a + b == b;
    } else {
      TotalConcat(a[1..], b, len);
      assert (a + b)[1..] == a[1..] + b;
    }
  }

  lemma JoinedConcat<T>(a: seq<T>, b: seq<T>, len: T -> nat)
    ensures JoinedLength(a + b, len) == JoinedLength(a, len) + JoinedLength(b, len) +
              if a == [] || b == [] then 0 else DELIMITER
  {
    TotalConcat(a, b, len);
  }

  lemma JoinedSnoc<T>(a: seq<T>, x: T, len: T -> nat)
    ensures JoinedLength(a + [x], len) == JoinedLength(a, len) + len(x) + if a == [] then 0 else DELIMITER
  {
    JoinedConcat(a, [x], len);
    assert Total([x], len) == len(x) + Total([], len);
  }

  /** A later start gives a shorter join. */
  lemma JoinedShrinks<T>(pieces: seq<T>, len: T -> nat, a: nat, c: nat, b: nat)
    requires a <= c <= b <= |pieces|
    ensures JoinedLength(pieces[c..b], len) <= JoinedLength(pieces[a..b], len)
  {
    assert pieces[a..b] == pieces[a..c] + pieces[c..b];
    JoinedConcat(pieces[a..c], pieces[c..b], len);
  }

  // ----- the carried tail

  /** Where the longest suffix whose join stays within `maximum` begins. */
  function TailStart<T>(values: seq<T>, maximum: nat, len: T -> nat): (c: nat)
    ensures c <= |values|
  {
    if values == [] || (JoinedLength(values, len) <= maximum && maximum > 0) then 0
    else 1 + TailStart(values[1..], maximum, len)
  }

  lemma {:induction false} TailFits<T>(values: seq<T>, maximum: nat, len: T -> nat)
    ensures var c := TailStart(values, maximum, len); c < |values| ==> JoinedLength(values[c..], len) <= maximum
  {
    var c := TailStart(values, maximum, len);
    if c > 0 {
      TailFits(values[1..], maximum, len);
      assert values[1..][c - 1..] == values[c..];
    } else {
      assert values[0..] == values;
    }
  }

  /** A suffix that is too long lies before the tail; one that fits lies inside it. */
  lemma {:induction false} TailBoundary<T>(values: seq<T>, maximum: nat, len: T -> nat, k: nat)
    requires k < |values| && maximum > 0
    ensures JoinedLength(values[k..], len) > maximum <==> k < TailStart(values, maximum, len)
  {
    assert values[0..] == values;
    if TailStart(values, maximum, len) == 0 {
      JoinedShrinks(values, len, 0, k, |values|);
      assert values[0..|values|] == values && values[k..|values|] == values[k..];
    } else if k > 0 {
      TailBoundary(values[1..], maximum, len, k - 1);
      assert values[1..][k - 1..] == values[k..];
    }
  }

  /** `_overlap_tail`: greedy from the back, yet it finds the longest suffix that fits. */
  method OverlapTail<T>(values: seq<T>, maximum: nat, len: T -> nat) returns (selected: seq<T>)
    ensures selected == values[TailStart(values, maximum, len)..]
  {
    ZeroTail(values, len);
    if maximum <= 0 { return []; }
    selected := [];
    var total := 0;
    var k := |values|;
    while k > 0
      invariant 0 <= k <= |values|
      invariant selected == values[k..] && total == JoinedLength(selected, len)
      invariant TailStart(values, maximum, len) <= k
    {
      var addition := len(values[k - 1]) + if selected != [] then DELIMITER else 0;
      JoinedCons(values, len, k - 1);
      TailBoundary(values, maximum, len, k - 1);
      if total + addition > maximum { break; }
      selected := [values[k - 1]] + selected;
      total := total + addition;
      k := k - 1;
    }
  }

  lemma JoinedCons<T>(values: seq<T>, len: T -> nat, k: nat)
    requires k < |values|
    ensures values[k..] == [values[k]] + values[k + 1..]
    ensures JoinedLength(values[k..], len) ==
            len(values[k]) + JoinedLength(values[k + 1..], len) + if values[k + 1..] == [] then 0 else DELIMITER
  {
  }

  lemma {:induction false} ZeroTail<T>(values: seq<T>, len: T -> nat)
    ensures TailStart(values, 0, len) == |values|
  {
    if values != [] { ZeroTail(values[1..], len); }
  }

  // ----- the grouping

  /** Piece `b` extends the group that starts at `a`. */
  ghost predicate Joins<T>(pieces: seq<T>, len: T -> nat, related: (T, T) -> bool, maximum: nat, a: nat, b: nat)
    requires a < b < |pieces|
  {
    related(pieces[b - 1], pieces[b]) && JoinedLength(pieces[a..b], len) + DELIMITER + len(pieces[b]) <= maximum
  }

  /** Where the group after [a, b) starts: at the carried overlap if it still fits, else at b. */
  ghost function NextStart<T>(
    pieces: seq<T>, len: T -> nat, related: (T, T) -> bool, maximum: nat, overlap: nat, a: nat, b: nat): (c: nat)
    requires a < b < |pieces|
    ensures a <= c <= b
  {
    var c := a + TailStart(pieces[a..b], overlap, len);
    if related(pieces[b - 1], pieces[b]) && c < b &&
      JoinedLength(pieces[c..b], len) + DELIMITER + len(pieces[b]) <= maximum
    then c else b
  }

  /** Group k is the interval [starts[k], ends[k]) of the pieces: it is extended as long as the
      next piece joins, and the next group starts at the carried overlap. */
  ghost predicate IsGrouping<T>(
    pieces: seq<T>, len: T -> nat, related: (T, T) -> bool, maximum: nat, overlap: nat,
    starts: seq<nat>, ends: seq<nat>)
  {
    && |starts| == |ends| > 0
    && starts[0] == 0 && ends[|ends| - 1] == |pieces|
    && (forall k | 0 <= k < |ends| :: starts[k] < ends[k] <= |pieces|)
    && (forall k, b | 0 <= k < |ends| && starts[k] < b < ends[k] :: Joins(pieces, len, related, maximum, starts[k], b))
    && forall k | 0 <= k < |ends| - 1 ::
         && ends[k] < |pieces|
         && !Joins(pieces, len, related, maximum, starts[k], ends[k])
         && starts[k + 1] == NextStart(pieces, len, related, maximum, overlap, starts[k], ends[k])
  }

  lemma CarryJoins<T>(
    pieces: seq<T>, len: T -> nat, related: (T, T) -> bool, maximum: nat, a: nat, c: nat, b: nat)
    requires a <= c < b < |pieces| && Joins(pieces, len, related, maximum, a, b)
    ensures Joins(pieces, len, related, maximum, c, b)
  {
    JoinedShrinks(pieces, len, a, c, b);
  }

  /** The group under construction is [a, i): every piece after its first joined it. */
  ghost predicate Open<T>(pieces: seq<T>, len: T -> nat, related: (T, T) -> bool, maximum: nat, a: nat, i: nat) {
    a < i <= |pieces| && forall b | a < b < i :: Joins(pieces, len, related, maximum, a, b)
  }

  /** The finished groups, whose successor starts at `a`. */
  ghost predicate Finished<T>(
    pieces: seq<T>, len: T -> nat, related: (T, T) -> bool, maximum: nat, overlap: nat,
    groups: seq<seq<T>>, starts: seq<nat>, ends: seq<nat>, a: nat)
  {
    && |groups| == |starts| == |ends| && (starts + [a])[0] == 0
    && (forall k | 0 <= k < |ends| :: Closed(pieces, len, related, maximum, overlap, starts + [a], ends, k))
    && forall k | 0 <= k < |ends| :: starts[k] < ends[k] < |pieces| && groups[k] == pieces[starts[k]..ends[k]]
  }

  /** The branch that starts a new group, with or without a carried overlap. */
  method StartGroup<T>(
    ghost pieces: seq<T>, ghost a: nat, ghost i: nat, current: seq<T>, piece: T, near: bool,
    len: T -> nat, ghost related: (T, T) -> bool, maximum: nat, overlap: nat)
    returns (next: seq<T>, nextLength: nat)
    requires a < i < |pieces| && current == pieces[a..i] && piece == pieces[i] && near == related(pieces[i - 1], piece)
    ensures next == pieces[NextStart(pieces, len, related, maximum, overlap, a, i)..i + 1]
    ensures nextLength == JoinedLength(next, len)
  {
    var carry := [];
    if near { carry := OverlapTail(current, overlap, len); }
    var carryLength := JoinedLength(carry, len);
    ghost var c := a + TailStart(pieces[a..i], overlap, len);
    DropSlice(pieces, a, i, TailStart(pieces[a..i], overlap, len));
    SliceSnoc(pieces, c, i);
    SliceSnoc(pieces, i, i);
    JoinedSnoc(carry, piece, len);
    JoinedSnoc([], piece, len);
    if carry != [] && carryLength + DELIMITER + len(piece) <= maximum {
      next, nextLength := carry + [piece], carryLength + DELIMITER + len(piece);
    } else {
      next, nextLength := [piece], len(piece);
    }
  }

  lemma DropSlice<T>(pieces: seq<T>, a: nat, b: nat, c: nat)
    requires a <= b <= |pieces| && c <= b - a
    ensures pieces[a..b][c..] == pieces[a + c..b]
  {
  }

  lemma SliceSnoc<T>(pieces: seq<T>, a: nat, b: nat)
    requires a <= b < |pieces|
    ensures pieces[a..b + 1] == pieces[a..b] + [pieces[b]]
    ensures pieces[b..b] == [] && [] + [pieces[b]] == [pieces[b]]
  {
  }

  lemma StartOpen<T>(
    pieces: seq<T>, len: T -> nat, related: (T, T) -> bool, maximum: nat, overlap: nat, a: nat, i: nat)
    requires i < |pieces| && Open(pieces, len, related, maximum, a, i)
    ensures Open(pieces, len, related, maximum, NextStart(pieces, len, related, maximum, overlap, a, i), i + 1)
  {
    var c := NextStart(pieces, len, related, maximum, overlap, a, i);
    forall b | c < b < i + 1 ensures Joins(pieces, len, related, maximum, c, b) {
      if b < i { CarryJoins(pieces, len, related, maximum, a, c, b); }
    }
  }

  method GroupPieces<T>(pieces: seq<T>, len: T -> nat, related: (T, T) -> bool, maximum: nat, overlap: nat)
    returns (groups: seq<seq<T>>, ghost starts: seq<nat>, ghost ends: seq<nat>)
    requires pieces != []
    ensures IsGrouping(pieces, len, related, maximum, overlap, starts, ends)
    ensures Intervals(pieces, groups, starts, ends)
  {
    groups, starts, ends := [], [], [];
    var current := [pieces[0]];
    var currentLength := len(pieces[0]);
    ghost var a: nat := 0;
    JoinedSnoc([], pieces[0], len);
    assert [] + [pieces[0]] == [pieces[0]];
    for i := 1 to |pieces|
      invariant Open(pieces, len, related, maximum, a, i)
      invariant current == pieces[a..i] && currentLength == JoinedLength(current, len)
      invariant Finished(pieces, len, related, maximum, overlap, groups, starts, ends, a)
    {
      var piece := pieces[i];
      assert pieces[a..i + 1] == pieces[a..i] + [piece];
      JoinedSnoc(pieces[a..i], piece, len);
      var near := related(current[|current| - 1], piece);
      if near && currentLength + DELIMITER + len(piece) <= maximum {
        current := current + [piece];
        currentLength := currentLength + DELIMITER + len(piece);
      } else {
        StartOpen(pieces, len, related, maximum, overlap, a, i);
        CloseGroup(pieces, len, related, maximum, overlap, groups, starts, ends, a, i);
        groups := groups + [current];
        starts, ends := starts + [a], ends + [i];
        current, currentLength := StartGroup(pieces, a, i, current, piece, near, len, related, maximum, overlap);
        a := NextStart(pieces, len, related, maximum, overlap, a, i);
      }
    }
    AllClosed(pieces, len, related, maximum, overlap, groups, starts, ends, a);
    groups, starts, ends := groups + [current], starts + [a], ends + [|pieces|];
  }

  /** Group k is finished: it could not be extended and its successor's start is settled. */
  ghost predicate Closed<T>(
    pieces: seq<T>, len: T -> nat, related: (T, T) -> bool, maximum: nat, overlap: nat,
    starts: seq<nat>, ends: seq<nat>, k: nat)
    requires k + 1 < |starts| && k < |ends|
  {
    && starts[k] < ends[k] < |pieces|
    && (forall b | starts[k] < b < ends[k] :: Joins(pieces, len, related, maximum, starts[k], b))
    && !Joins(pieces, len, related, maximum, starts[k], ends[k])
    && starts[k + 1] == NextStart(pieces, len, related, maximum, overlap, starts[k], ends[k])
  }

  lemma CloseGroup<T>(
    pieces: seq<T>, len: T -> nat, related: (T, T) -> bool, maximum: nat, overlap: nat,
    groups: seq<seq<T>>, starts: seq<nat>, ends: seq<nat>, a: nat, i: nat)
    requires Finished(pieces, len, related, maximum, overlap, groups, starts, ends, a)
    requires i < |pieces| && Open(pieces, len, related, maximum, a, i) && !Joins(pieces, len, related, maximum, a, i)
    ensures Finished(pieces, len, related, maximum, overlap, groups + [pieces[a..i]], starts + [a], ends + [i],
                     NextStart(pieces, len, related, maximum, overlap, a, i))
  {
    var c := NextStart(pieces, len, related, maximum, overlap, a, i);
    var s, e := starts + [a] + [c], ends + [i];
    forall k | 0 <= k < |e| ensures Closed(pieces, len, related, maximum, overlap, s, e, k) {
      if k < |ends| {
        assert Closed(pieces, len, related, maximum, overlap, starts + [a], ends, k);
        assert s[k] == (starts + [a])[k] && s[k + 1] == (starts + [a])[k + 1] && e[k] == ends[k];
      }
    }
  }

  lemma AllClosed<T>(
    pieces: seq<T>, len: T -> nat, related: (T, T) -> bool, maximum: nat, overlap: nat,
    groups: seq<seq<T>>, starts: seq<nat>, ends: seq<nat>, a: nat)
    requires Finished(pieces, len, related, maximum, overlap, groups, starts, ends, a)
    requires Open(pieces, len, related, maximum, a, |pieces|)
    ensures IsGrouping(pieces, len, related, maximum, overlap, starts + [a], ends + [|pieces|])
    ensures Intervals(pieces, groups + [pieces[a..]], starts + [a], ends + [|pieces|])
  {
    var s, e := starts + [a], ends + [|pieces|];
    assert pieces[a..] == pieces[a..|pieces|];
    forall k | 0 <= k < |ends| ensures e[k] == ends[k] && Closed(pieces, len, related, maximum, overlap, s, ends, k) {}
  }

  ghost predicate Intervals<T>(pieces: seq<T>, groups: seq<seq<T>>, starts: seq<nat>, ends: seq<nat>) {
    && |groups| == |starts| == |ends|
    && forall k | 0 <= k < |ends| :: starts[k] < ends[k] <= |pieces| && groups[k] == pieces[starts[k]..ends[k]]
  }

  // ----- what a grouping guarantees

  /** Intervals that leave no gap, with strictly increasing starts and ends. */
  ghost predicate Contiguous(n: nat, starts: seq<nat>, ends: seq<nat>) {
    && |starts| == |ends| > 0 && starts[0] == 0 && ends[|ends| - 1] == n
    && forall k | 0 <= k < |ends| - 1 :: starts[k] < starts[k + 1] <= ends[k] < ends[k + 1]
  }

  /** A carried group reaches past the end of the group it overlaps. */
  lemma CarriedReaches<T>(
    pieces: seq<T>, len: T -> nat, related: (T, T) -> bool, maximum: nat, overlap: nat, a: nat, b: nat, c: nat, e: nat)
    requires a < b < |pieces| && c == NextStart(pieces, len, related, maximum, overlap, a, b) && c < b
    requires forall j | a < j < b :: Joins(pieces, len, related, maximum, a, j)
    requires c < e < |pieces| && !Joins(pieces, len, related, maximum, c, e)
    ensures b < e
  {
    if e < b { CarryJoins(pieces, len, related, maximum, a, c, e); }
    assert Joins(pieces, len, related, maximum, c, b);
  }

  lemma StartsAdvance<T>(
    pieces: seq<T>, len: T -> nat, related: (T, T) -> bool, maximum: nat, overlap: nat, a: nat, b: nat)
    requires a < b < |pieces| && !Joins(pieces, len, related, maximum, a, b)
    ensures var c := NextStart(pieces, len, related, maximum, overlap, a, b);
      && a < c <= b
      && (c < b ==> JoinedLength(pieces[c..b], len) <= overlap)
  {
    var c := NextStart(pieces, len, related, maximum, overlap, a, b);
    TailFits(pieces[a..b], overlap, len);
    assert pieces[a..b][c - a..] == pieces[c..b];
    assert pieces[a..b][0..] == pieces[a..b];
  }

  lemma GroupAdvances<T>(
    pieces: seq<T>, len: T -> nat, related: (T, T) -> bool, maximum: nat, overlap: nat,
    starts: seq<nat>, ends: seq<nat>, k: nat)
    requires IsGrouping(pieces, len, related, maximum, overlap, starts, ends) && k + 1 < |ends|
    ensures starts[k] < starts[k + 1] <= ends[k] < ends[k + 1]
    ensures JoinedLength(pieces[starts[k + 1]..ends[k]], len) <= overlap
  {
    StartsAdvance(pieces, len, related, maximum, overlap, starts[k], ends[k]);
    if starts[k + 1] < ends[k] {
      if ends[k + 1] < |pieces| {
        assert k + 1 < |ends| - 1;
        CarriedReaches(pieces, len, related, maximum, overlap, starts[k], ends[k], starts[k + 1], ends[k + 1]);
      }
    }
  }

  /** Nothing is dropped, ends strictly increase, consecutive groups overlap by at most `overlap`
      joined characters and no group's join exceeds `maximum`. */
  lemma GroupingBounds<T>(
    pieces: seq<T>, len: T -> nat, related: (T, T) -> bool, maximum: nat, overlap: nat,
    starts: seq<nat>, ends: seq<nat>)
    requires IsGrouping(pieces, len, related, maximum, overlap, starts, ends)
    requires forall i | 0 <= i < |pieces| :: len(pieces[i]) <= maximum
    ensures Contiguous(|pieces|, starts, ends)
    ensures forall k | 0 <= k < |ends| :: JoinedLength(pieces[starts[k]..ends[k]], len) <= maximum
    ensures forall k | 0 <= k < |ends| - 1 :: JoinedLength(pieces[starts[k + 1]..ends[k]], len) <= overlap
    ensures forall k, b | 0 <= k < |ends| && starts[k] < b < ends[k] :: related(pieces[b - 1], pieces[b])
  {
    forall k | 0 <= k < |ends| - 1
      ensures starts[k] < starts[k + 1] <= ends[k] < ends[k + 1]
      ensures JoinedLength(pieces[starts[k + 1]..ends[k]], len) <= overlap
    {
      GroupAdvances(pieces, len, related, maximum, overlap, starts, ends, k);
    }
    forall k | 0 <= k < |ends| ensures JoinedLength(pieces[starts[k]..ends[k]], len) <= maximum {
      var last := ends[k] - 1;
      assert pieces[starts[k]..ends[k]] == pieces[starts[k]..last] + [pieces[last]];
      JoinedSnoc(pieces[starts[k]..last], pieces[last], len);
      if starts[k] < last { assert Joins(pieces, len, related, maximum, starts[k], last); }
    }
    forall k, b | 0 <= k < |ends| && starts[k] < b < ends[k] ensures related(pieces[b - 1], pieces[b]) {
      assert Joins(pieces, len, related, maximum, starts[k], b);
    }
  }

  // ----- where groups end and what they carry

  /** The suffix of [a, b) that starts at `c` fits the overlap, no longer one does, the pieces on both
      sides of `b` are related, and the next piece still fits behind that suffix. */
  ghost predicate Carried<T>(
    pieces: seq<T>, len: T -> nat, related: (T, T) -> bool, maximum: nat, overlap: nat, a: nat, b: nat, c: nat)
    requires a < b < |pieces|
  {
    && a <= c < b && overlap > 0 && JoinedLength(pieces[c..b], len) <= overlap
    && (forall d | a <= d < c :: JoinedLength(pieces[d..b], len) > overlap)
    && related(pieces[b - 1], pieces[b])
    && JoinedLength(pieces[c..b], len) + DELIMITER + len(pieces[b]) <= maximum
  }

  lemma TailLeast<T>(pieces: seq<T>, len: T -> nat, overlap: nat, a: nat, b: nat, d: nat)
    requires a <= d < b <= |pieces| && overlap > 0
    ensures d < a + TailStart(pieces[a..b], overlap, len) <==> JoinedLength(pieces[d..b], len) > overlap
  {
    TailBoundary(pieces[a..b], overlap, len, d - a);
    DropSlice(pieces, a, b, d - a);
  }

  /** The tail start is the least one that fits. */
  lemma TailIsLeast<T>(pieces: seq<T>, len: T -> nat, overlap: nat, a: nat, b: nat, c: nat)
    requires a <= c < b <= |pieces| && overlap > 0
    ensures c == a + TailStart(pieces[a..b], overlap, len) <==>
      && JoinedLength(pieces[c..b], len) <= overlap
      && forall d | a <= d < c :: JoinedLength(pieces[d..b], len) > overlap
  {
    forall d | a <= d <= c
      ensures d < a + TailStart(pieces[a..b], overlap, len) <==> JoinedLength(pieces[d..b], len) > overlap
    {
      TailLeast(pieces, len, overlap, a, b, d);
    }
    if c > a { assert c - 1 < a + TailStart(pieces[a..b], overlap, len) <==>
                      JoinedLength(pieces[c - 1..b], len) > overlap; }
  }

  lemma NextIsCarried<T>(
    pieces: seq<T>, len: T -> nat, related: (T, T) -> bool, maximum: nat, overlap: nat, a: nat, b: nat, c: nat)
    requires a < b < |pieces|
    ensures Carried(pieces, len, related, maximum, overlap, a, b, c) <==>
      c < b && c == NextStart(pieces, len, related, maximum, overlap, a, b)
  {
    if overlap == 0 {
      ZeroTail(pieces[a..b], len);
    } else if a <= c < b {
      TailIsLeast(pieces, len, overlap, a, b, c);
    }
  }

  /** The next group starts at the carried suffix if there is one, else behind this group; a group
      ends only where the next piece is unrelated or would exceed the maximum, and nowhere earlier. */
  lemma GroupBoundaries<T>(
    pieces: seq<T>, len: T -> nat, related: (T, T) -> bool, maximum: nat, overlap: nat,
    starts: seq<nat>, ends: seq<nat>, k: nat)
    requires IsGrouping(pieces, len, related, maximum, overlap, starts, ends) && k < |ends|
    ensures starts[k] < ends[k] <= |pieces|
    ensures forall b | starts[k] < b < ends[k] ::
      && related(pieces[b - 1], pieces[b])
      && JoinedLength(pieces[starts[k]..b], len) + DELIMITER + len(pieces[b]) <= maximum
    ensures k + 1 < |ends| ==>
      var a, b := starts[k], ends[k];
      && b < |pieces|
      && (!related(pieces[b - 1], pieces[b]) || JoinedLength(pieces[a..b], len) + DELIMITER + len(pieces[b]) > maximum)
      && (forall c :: Carried(pieces, len, related, maximum, overlap, a, b, c) ==> starts[k + 1] == c)
      && ((forall c :: !Carried(pieces, len, related, maximum, overlap, a, b, c)) ==> starts[k + 1] == b)
  {
    forall b | starts[k] < b < ends[k]
      ensures related(pieces[b - 1], pieces[b])
      ensures JoinedLength(pieces[starts[k]..b], len) + DELIMITER + len(pieces[b]) <= maximum
    {
      assert Joins(pieces, len, related, maximum, starts[k], b);
    }
    if k + 1 < |ends| {
      var a, b := starts[k], ends[k];
      assert k < |ends| - 1;
      forall c: nat
        ensures Carried(pieces, len, related, maximum, overlap, a, b, c) <==> c < b && c == starts[k + 1]
      {
        NextIsCarried(pieces, len, related, maximum, overlap, a, b, c);
      }
      assert Carried(pieces, len, related, maximum, overlap, a, b, starts[k + 1]) <==> starts[k + 1] < b;
    }
  }
}
