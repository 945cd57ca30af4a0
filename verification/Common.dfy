/** Vocabulary shared by every component: optional values, failures, Python's
    whitespace, code-point string order, duplicate-free sequences and the
    stable sort. */
module Common {

  datatype Option<+T> = None | Some(value: T)

  /** A raised error is a failure result; the source's message is its only payload. */
  datatype Result<+T> = Ok(value: T) | Err(error: string)

  // ----- text

  /** The characters for which Python's `str.isspace` holds. */
  predicate IsSpace(c: char) {
    var n := c as int;
    || 0x09 <= n <= 0x0d || 0x1c <= n <= 0x20 || n == 0x85 || n == 0xa0 || n == 0x1680
    || 0x2000 <= n <= 0x200a || n == 0x2028 || n == 0x2029 || n == 0x202f || n == 0x205f || n == 0x3000
  }

  /** `not text.strip()`. */
  predicate Blank(text: string) {
    forall i | 0 <= i < |text| :: IsSpace(text[i])
  }

  predicate StartsWith(text: string, prefix: string) {
    |prefix| <= |text| && text[..|prefix|] == prefix
  }

  // ----- code-point order on strings

  predicate StrLess(a: string, b: string) {
    if b == [] then false
    else if a == [] then true
    else a[0] < b[0] || (a[0] == b[0] && StrLess(a[1..], b[1..]))
  }

  lemma {:induction false} StrTrichotomy(a: string, b: string)
    ensures (StrLess(a, b) && a != b && !StrLess(b, a))
         || (!StrLess(a, b) && a == b && !StrLess(b, a))
         || (!StrLess(a, b) && a != b && StrLess(b, a))
  {
    if a != [] && b != [] {
      StrTrichotomy(a[1..], b[1..]);
      assert a == [a[0]] + a[1..] && b == [b[0]] + b[1..];
    }
  }

  lemma {:induction false} StrTransitive(a: string, b: string, c: string)
    requires StrLess(a, b) && StrLess(b, c)
    ensures StrLess(a, c)
  {
    if a != [] && a[0] == b[0] == c[0] {
      StrTransitive(a[1..], b[1..], c[1..]);
    }
  }

  // ----- duplicate-free sequences

  ghost predicate Distinct<T>(s: seq<T>) {
    forall i, j | 0 <= i < j < |s| :: s[i] != s[j]
  }

  function Elements<T>(s: seq<T>): set<T> {
    set x | x in s
  }

  /** `list.index` of an element that is present. */
  function IndexOf<T(==)>(s: seq<T>, x: T): (i: nat)
    requires x in s
    ensures i < |s| && s[i] == x && x !in s[..i]
  {
    if s[0] == x then 0 else
      var i := 1 + IndexOf(s[1..], x);
      assert s[..i] == [s[0]] + s[1..][..i - 1];
      i
  }

  lemma DistinctTail<T>(s: seq<T>)
    requires s != [] && s[0] !in s[1..]
    ensures Distinct(s) <==> Distinct(s[1..])
  {
    var rest := s[1..];
    if Distinct(rest) {
      forall i, j | 0 <= i < j < |s| ensures s[i] != s[j] { assert s[j] == rest[j - 1]; }
    }
    if Distinct(s) {
      forall i, j | 0 <= i < j < |rest| ensures rest[i] != rest[j] { assert s[i + 1] != s[j + 1]; }
    }
  }

  lemma {:induction false} DistinctCount<T>(s: seq<T>)
    ensures |Elements(s)| <= |s|
    ensures Distinct(s) <==> |Elements(s)| == |s|
  {
    if s != [] {
      var rest := s[1..];
      DistinctCount(rest);
      assert s == [s[0]] + rest;
      if s[0] in rest {
        assert Elements(s) == Elements(rest);
        var k :| 0 <= k < |rest| && rest[k] == s[0];
        assert s[0] == s[k + 1];
      } else {
        assert Elements(s) == {s[0]} + Elements(rest);
        DistinctTail(s);
      }
    }
  }

  lemma SubsetCard<T>(a: set<T>, b: set<T>)
    requires a <= b
    ensures |a| <= |b|
    ensures |a| == |b| ==> a == b
  {
    assert b == a + (b - a);
    assert |b| == |a| + |b - a|;
  }

  /** Distinct sequences over the same elements are permutations of each other. */
  lemma {:induction false} SameElementsPermute<T>(a: seq<T>, b: seq<T>)
    requires Distinct(a) && Distinct(b) && Elements(a) == Elements(b)
    ensures multiset(a) == multiset(b) && |a| == |b|
  {
    DistinctCount(a);
    DistinctCount(b);
    DistinctMultiset(a);
    DistinctMultiset(b);
    forall x ensures multiset(a)[x] == multiset(b)[x] {
      assert x in Elements(a) <==> x in Elements(b);
    }
  }

  lemma {:induction false} DistinctMultiset<T>(s: seq<T>)
    requires Distinct(s)
    ensures forall x :: multiset(s)[x] == if x in s then 1 else 0
  {
    if s != [] {
      var rest := s[1..];
      assert s == [s[0]] + rest;
      forall i, j | 0 <= i < j < |rest| ensures rest[i] != rest[j] { assert s[i + 1] != s[j + 1]; }
      DistinctMultiset(rest);
      assert forall k | 0 <= k < |rest| :: rest[k] == s[k + 1];
    }
  }

  lemma {:induction false} MultisetDistinct<T>(s: seq<T>, t: seq<T>)
    requires multiset(s) == multiset(t) && Distinct(s)
    ensures Distinct(t) && Elements(t) == Elements(s) && |t| == |s|
  {
    assert Elements(s) == Elements(t) by {
      forall x ensures x in s <==> x in t { assert x in multiset(s) <==> x in multiset(t); }
    }
    assert |multiset(s)| == |s| && |multiset(t)| == |t|;
    DistinctCount(s);
    DistinctCount(t);
  }

  // ----- first occurrences (`dict.fromkeys`)

  /** The values, each once, in the order they first occur. */
  function FirstOccurrences<T(==)>(values: seq<T>): (r: seq<T>)
    ensures r == [] <==> values == []
  {
    if values == [] then []
    else
      var last := values[|values| - 1];
      var before := FirstOccurrences(values[..|values| - 1]);
      if last in values[..|values| - 1] then before else before + [last]
  }

  lemma {:induction false} IndexInFront<T>(p: seq<T>, x: T, y: T)
    requires y in p
    ensures y in p + [x] && IndexOf(p + [x], y) == IndexOf(p, y)
  {
    if p[0] != y {
      assert (p + [x])[1..] == p[1..] + [x];
      IndexInFront(p[1..], x, y);
    }
  }

  lemma {:induction false} IndexAtEnd<T>(p: seq<T>, x: T)
    requires x !in p
    ensures x in p + [x] && IndexOf(p + [x], x) == |p|
  {
    if p != [] {
      assert (p + [x])[1..] == p[1..] + [x];
      IndexAtEnd(p[1..], x);
    }
  }

  /** They are the different values, ordered by where each first occurs. */
  lemma {:induction false} FirstOccurrencesMeaning<T>(values: seq<T>)
    ensures var r := FirstOccurrences(values);
      && Distinct(r) && Elements(r) == Elements(values)
      && forall i, j | 0 <= i < j < |r| ::
           r[i] in values && r[j] in values && IndexOf(values, r[i]) < IndexOf(values, r[j])
  {
    if values != [] {
      var n := |values| - 1;
      var p, x := values[..n], values[n];
      assert values == p + [x];
      FirstOccurrencesMeaning(p);
      var before := FirstOccurrences(p);
      ElementsSnoc(p, x);
      ElementsSnoc(before, x);
      forall i | 0 <= i < |before|
        ensures before[i] in p && before[i] in values && IndexOf(values, before[i]) == IndexOf(p, before[i])
      {
        assert before[i] in Elements(before);
        IndexInFront(p, x, before[i]);
      }
      if x in p {
        assert Elements(p) + {x} == Elements(p);
      } else {
        IndexAtEnd(p, x);
        assert x !in Elements(before);
      }
    }
  }

  // ----- positions

  /** Ascending positions below `n`, exactly those that pass. */
  ghost predicate Picks(at: seq<nat>, passes: nat -> bool, n: nat) {
    && (forall i | 0 <= i < |at| :: at[i] < n && passes(at[i]))
    && (forall i, j | 0 <= i < j < |at| :: at[i] < at[j])
    && forall k: nat | k < n && passes(k) :: k in at
  }

  lemma PicksSnoc(at: seq<nat>, passes: nat -> bool, n: nat)
    requires Picks(at, passes, n)
    ensures Picks(at + if passes(n) then [n] else [], passes, n + 1)
  {
    var longer := at + if passes(n) then [n] else [];
    forall k: nat | k < n + 1 && passes(k) ensures k in longer {
      if k < n { assert k in at; } else { assert longer[|at|] == n; }
    }
  }

  // ----- the comprehension `[x for x in s if keep(x)]`

  function Filter<T>(s: seq<T>, keep: T -> bool): (r: seq<T>)
    ensures |r| <= |s|
    ensures forall i | 0 <= i < |r| :: r[i] in s && keep(r[i])
  {
    if s == [] then []
    else if keep(s[0]) then [s[0]] + Filter(s[1..], keep)
    else Filter(s[1..], keep)
  }

  lemma {:induction false} FilterKeeps<T>(s: seq<T>, keep: T -> bool, x: T)
    ensures x in Filter(s, keep) <==> x in s && keep(x)
  {
    if s != [] {
      assert s == [s[0]] + s[1..];
      FilterKeeps(s[1..], keep, x);
    }
  }

  lemma {:induction false} FilterConcat<T>(a: seq<T>, b: seq<T>, keep: T -> bool)
    ensures Filter(a + b, keep) == Filter(a, keep) + Filter(b, keep)
  {
    if a == [] {
      assert a + b == b;
    } else {
      FilterConcat(a[1..], b, keep);
      assert (a + b)[1..] == a[1..] + b;
    }
  }

  lemma {:induction false} FilterDistinct<T>(s: seq<T>, keep: T -> bool)
    requires Distinct(s)
    ensures Distinct(Filter(s, keep))
  {
    if s != [] {
      var rest := s[1..];
      assert forall i | 0 <= i < |rest| :: rest[i] == s[i + 1];
      FilterDistinct(rest, keep);
      FilterKeeps(rest, keep, s[0]);
    }
  }

  /** Filtering by two tests that agree on `s` gives the same sequence. */
  lemma {:induction false} FilterAgrees<T>(s: seq<T>, p: T -> bool, q: T -> bool)
    requires forall x | x in s :: p(x) == q(x)
    ensures Filter(s, p) == Filter(s, q)
  {
    if s != [] {
      assert s[0] in s && forall x | x in s[1..] :: x in s;
      FilterAgrees(s[1..], p, q);
    }
  }

  lemma {:induction false} FilterAll<T>(s: seq<T>, keep: T -> bool)
    requires forall x | x in s :: keep(x)
    ensures Filter(s, keep) == s
  {
    if s != [] {
      assert s[0] in s && forall x | x in s[1..] :: x in s;
      FilterAll(s[1..], keep);
    }
  }

  lemma {:induction false} FilterNone<T>(s: seq<T>, keep: T -> bool)
    requires forall x | x in s :: !keep(x)
    ensures Filter(s, keep) == []
  {
    if s != [] {
      assert s[0] in s && forall x | x in s[1..] :: x in s;
      FilterNone(s[1..], keep);
    }
  }

  /** The `k`-th kept element is found at the position before which `k` elements are kept. */
  lemma {:induction false} FilterAt<T>(s: seq<T>, keep: T -> bool, p: nat)
    requires p < |s| && keep(s[p])
    ensures var k := |Filter(s[..p], keep)|; k < |Filter(s, keep)| && Filter(s, keep)[k] == s[p]
  {
    assert s == s[..p] + s[p..] && s[p..] == [s[p]] + s[p + 1..];
    FilterConcat(s[..p], s[p..], keep);
  }

  lemma FilterAtOrder<T>(s: seq<T>, keep: T -> bool, p: nat, q: nat)
    requires p < q <= |s| && keep(s[p])
    ensures |Filter(s[..p], keep)| < |Filter(s[..q], keep)|
  {
    assert s[..q] == s[..p] + s[p..q] && s[p..q] == [s[p]] + s[p + 1..q];
    FilterConcat(s[..p], s[p..q], keep);
  }

  /** Filtering sees only the kept elements and where they stand. */
  lemma {:induction false} FilterPositional<T>(a: seq<T>, b: seq<T>, keep: T -> bool)
    requires |a| == |b|
    requires forall p | 0 <= p < |a| :: keep(a[p]) == keep(b[p]) && (keep(a[p]) ==> a[p] == b[p])
    ensures Filter(a, keep) == Filter(b, keep)
  {
    if a != [] {
      assert forall p | 0 <= p < |a[1..]| :: a[1..][p] == a[p + 1] && b[1..][p] == b[p + 1];
      FilterPositional(a[1..], b[1..], keep);
    }
  }

  /** Two sequences keep the same positions, so equally many elements before any point. */
  lemma {:induction false} FilterSameLength<T>(a: seq<T>, b: seq<T>, keep: T -> bool)
    requires |a| == |b|
    requires forall p | 0 <= p < |a| :: keep(a[p]) == keep(b[p])
    ensures |Filter(a, keep)| == |Filter(b, keep)|
  {
    if a != [] {
      assert forall p | 0 <= p < |a[1..]| :: a[1..][p] == a[p + 1] && b[1..][p] == b[p + 1];
      FilterSameLength(a[1..], b[1..], keep);
    }
  }

  lemma FilterSnoc<T>(s: seq<T>, x: T, keep: T -> bool)
    ensures Filter(s + [x], keep) == Filter(s, keep) + if keep(x) then [x] else []
  {
    FilterConcat(s, [x], keep);
  }

  /** The ascending list `at` crosses `n` exactly between its places `j - 1` and `j`. */
  ghost predicate Crosses(at: seq<nat>, n: nat, j: nat) {
    forall k | 0 <= k < |at| :: k < j <==> at[k] < n
  }

  lemma CrossesBack(at: seq<nat>, n: nat, j: nat, k: nat)
    requires forall k, l | 0 <= k < l < |at| :: at[k] < at[l]
    requires n > 0 && j <= |at| && Crosses(at, n, j) && k < |at| && at[k] == n - 1
    ensures j == k + 1 && Crosses(at, n - 1, k)
  {
    assert k + 1 < |at| ==> at[k] < at[k + 1];
  }

  /** When the kept positions are exactly the ascending list `at`, so are the kept elements. */
  lemma {:induction false} FilterAscending<T>(s: seq<T>, keep: T -> bool, at: seq<nat>, n: nat, j: nat)
    requires n <= |s| && j <= |at| && Crosses(at, n, j)
    requires forall k | 0 <= k < |at| :: at[k] < |s| && keep(s[at[k]])
    requires forall k, l | 0 <= k < l < |at| :: at[k] < at[l]
    requires forall p | 0 <= p < |s| && keep(s[p]) :: p in at
    ensures |Filter(s[..n], keep)| == j && forall k | 0 <= k < j :: Filter(s[..n], keep)[k] == s[at[k]]
  {
    if n == 0 {
      assert |at| > 0 ==> at[0] >= 0;
    } else {
      assert s[..n] == s[..n - 1] + [s[n - 1]];
      FilterSnoc(s[..n - 1], s[n - 1], keep);
      if keep(s[n - 1]) {
        var k :| 0 <= k < |at| && at[k] == n - 1;
        CrossesBack(at, n, j, k);
        FilterAscending(s, keep, at, n - 1, k);
      } else {
        assert forall k | 0 <= k < |at| :: at[k] != n - 1;
        FilterAscending(s, keep, at, n - 1, j);
      }
    }
  }

  lemma {:induction false} FilterCount<T>(s: seq<T>, keep: T -> bool, x: T)
    ensures multiset(Filter(s, keep))[x] == if keep(x) then multiset(s)[x] else 0
  {
    if s != [] {
      FilterCount(s[1..], keep, x);
      assert s == [s[0]] + s[1..];
    }
  }

  ghost predicate OneOf<T(!new)>(p: T -> bool, q: T -> bool, r: T -> bool) {
    forall x :: (p(x) && !q(x) && !r(x)) || (!p(x) && q(x) && !r(x)) || (!p(x) && !q(x) && r(x))
  }

  /** Three tests of which every element passes exactly one split a sequence without loss. */
  lemma FilterPartition<T(!new)>(s: seq<T>, p: T -> bool, q: T -> bool, r: T -> bool)
    requires OneOf(p, q, r)
    ensures multiset(s) == multiset(Filter(s, p)) + multiset(Filter(s, q)) + multiset(Filter(s, r))
  {
    forall x
      ensures multiset(s)[x] == multiset(Filter(s, p))[x] + multiset(Filter(s, q))[x] + multiset(Filter(s, r))[x]
    {
      FilterCount(s, p, x);
      FilterCount(s, q, x);
      FilterCount(s, r, x);
      assert (p(x) && !q(x) && !r(x)) || (!p(x) && q(x) && !r(x)) || (!p(x) && !q(x) && r(x));
    }
  }

  // ----- the comprehension `[f(x) for x in s]`

  function Map<T, U>(s: seq<T>, f: T -> U): (r: seq<U>)
    ensures |r| == |s| && forall i | 0 <= i < |r| :: r[i] == f(s[i])
  {
    if s == [] then [] else [f(s[0])] + Map(s[1..], f)
  }

  lemma MapConcat<T, U>(a: seq<T>, b: seq<T>, f: T -> U)
    ensures Map(a + b, f) == Map(a, f) + Map(b, f)
  {
  }

  lemma MapMember<T, U>(s: seq<T>, f: T -> U, y: U)
    ensures y in Map(s, f) <==> exists x :: x in s && f(x) == y
  {
    var r := Map(s, f);
    if y in r {
      var i :| 0 <= i < |r| && r[i] == y;
      assert s[i] in s && f(s[i]) == y;
    }
    if x :| x in s && f(x) == y {
      var i :| 0 <= i < |s| && s[i] == x;
      assert r[i] == y;
    }
  }

  lemma MapAround<T, U>(before: seq<T>, x: T, after: seq<T>, f: T -> U)
    ensures Map(before + [x] + after, f) == Map(before, f) + [f(x)] + Map(after, f)
  {
    MapConcat(before + [x], after, f);
    MapConcat(before, [x], f);
  }

  lemma Removed<T>(before: seq<T>, x: T, after: seq<T>)
    ensures multiset(before + [x] + after) == multiset(before + after) + multiset{x}
  {
  }

  lemma Restored<T>(x: T, s: seq<T>, before: seq<T>, after: seq<T>)
    requires multiset(s) == multiset(before + after)
    ensures multiset([] + [x] + s) == multiset(before + [x] + after)
  {
  }

  lemma Cancel<T>(a: multiset<T>, b: multiset<T>, x: T)
    requires a + multiset{x} == b + multiset{x}
    ensures a == b
  {
    assert a == (a + multiset{x}) - multiset{x};
    assert b == (b + multiset{x}) - multiset{x};
  }

  lemma {:induction false} MapPermutes<T, U>(a: seq<T>, b: seq<T>, f: T -> U)
    requires multiset(a) == multiset(b)
    ensures multiset(Map(a, f)) == multiset(Map(b, f))
  {
    if a == [] {
      assert |multiset(b)| == 0 && |multiset(b)| == |b|;
    } else {
      assert a[0] in multiset(a);
      assert a[0] in b;
      var k :| 0 <= k < |b| && b[k] == a[0];
      MapPermutesStep(a, b, f, k);
      MapPermutes(a[1..], b[..k] + b[k + 1..], f);
      MapConcat(b[..k], b[k + 1..], f);
      Restored(f(a[0]), Map(a[1..], f), Map(b[..k], f), Map(b[k + 1..], f));
    }
  }

  lemma RemovedBoth<T>(x: T, rest: seq<T>, before: seq<T>, after: seq<T>)
    requires multiset([x] + rest) == multiset(before + [x] + after)
    ensures multiset(rest) == multiset(before + after)
  {
    assert [] + [x] + rest == [x] + rest && [] + rest == rest;
    Removed([], x, rest);
    Removed(before, x, after);
    Cancel(multiset(rest), multiset(before + after), x);
  }

  lemma MapPermutesStep<T, U>(a: seq<T>, b: seq<T>, f: T -> U, k: nat)
    requires a != [] && k < |b| && b[k] == a[0] && multiset(a) == multiset(b)
    ensures multiset(a[1..]) == multiset(b[..k] + b[k + 1..])
    ensures Map(a, f) == [] + [f(a[0])] + Map(a[1..], f)
    ensures Map(b, f) == Map(b[..k], f) + [f(a[0])] + Map(b[k + 1..], f)
  {
    var x, before, after := a[0], b[..k], b[k + 1..];
    assert [] + [x] + a[1..] == a && [] + a[1..] == a[1..] && before + [x] + after == b;
    assert [x] + a[1..] == a;
    RemovedBoth(x, a[1..], before, after);
    MapAround([], x, a[1..], f);
    MapAround(before, x, after, f);
  }

  // ----- the stable sort (`sorted` and `list.sort` with a key)

  /** A strict weak order: what comparing sort keys with `<` gives. */
  ghost predicate StrictWeak<T(!new)>(less: (T, T) -> bool) {
    && (forall a, b :: less(a, b) ==> !less(b, a))
    && (forall a, b, c :: !less(b, a) && !less(c, b) ==> !less(c, a))
  }

  function Insert<T>(x: T, s: seq<T>, less: (T, T) -> bool): (r: seq<T>)
    ensures multiset(r) == multiset(s) + multiset{x}
    ensures |r| == |s| + 1
  {
    if s == [] then [x]
    else if less(s[0], x) then
      assert s == [s[0]] + s[1..];
      [s[0]] + Insert(x, s[1..], less)
    else [x] + s
  }

  function Sorted<T>(s: seq<T>, less: (T, T) -> bool): (r: seq<T>)
    ensures multiset(r) == multiset(s)
    ensures |r| == |s|
  {
    if s == [] then [] else
      assert s == [s[0]] + s[1..];
      Insert(s[0], Sorted(s[1..], less), less)
  }

  ghost predicate Ascending<T>(s: seq<T>, less: (T, T) -> bool) {
    forall i, j | 0 <= i < j < |s| :: !less(s[j], s[i])
  }

  lemma {:induction false} InsertAscends<T(!new)>(x: T, s: seq<T>, less: (T, T) -> bool)
    requires StrictWeak(less) && Ascending(s, less)
    ensures Ascending(Insert(x, s, less), less)
  {
    var r := Insert(x, s, less);
    if s == [] {
    } else if less(s[0], x) {
      var rest := s[1..];
      forall i, j | 0 <= i < j < |rest| ensures !less(rest[j], rest[i]) { assert !less(s[j + 1], s[i + 1]); }
      InsertAscends(x, rest, less);
      var tail := Insert(x, rest, less);
      assert r == [s[0]] + tail;
      forall j | 0 <= j < |tail| ensures !less(tail[j], s[0]) {
        assert tail[j] in multiset(tail);
        if tail[j] != x {
          assert tail[j] in multiset(rest);
          var k :| 0 <= k < |rest| && rest[k] == tail[j];
          assert !less(s[k + 1], s[0]);
        }
      }
      forall i, j | 0 <= i < j < |r| ensures !less(r[j], r[i]) {
        assert r[j] == tail[j - 1];
        if i > 0 { assert r[i] == tail[i - 1]; }
      }
    } else {
      forall i, j | 0 <= i < j < |r| ensures !less(r[j], r[i]) {
        if i == 0 {
          assert r[j] == s[j - 1];
          if j > 1 { assert !less(s[j - 1], s[0]); }
        } else {
          assert r[i] == s[i - 1] && r[j] == s[j - 1];
        }
      }
    }
  }

  lemma {:induction false} SortedAscends<T(!new)>(s: seq<T>, less: (T, T) -> bool)
    requires StrictWeak(less)
    ensures Ascending(Sorted(s, less), less)
  {
    if s != [] {
      SortedAscends(s[1..], less);
      InsertAscends(s[0], Sorted(s[1..], less), less);
    }
  }

  lemma AscendingTail<T>(s: seq<T>, less: (T, T) -> bool)
    requires Ascending(s, less) && s != []
    ensures Ascending(s[1..], less) && (|s| > 1 ==> !less(s[1], s[0]))
  {
    forall i, j | 0 <= i < j < |s[1..]| ensures !less(s[1..][j], s[1..][i]) { assert !less(s[j + 1], s[i + 1]); }
  }

  /** A sequence that already ascends is left alone, ties included: the sort is stable. */
  lemma {:induction false} SortedFixpoint<T(!new)>(s: seq<T>, less: (T, T) -> bool)
    requires StrictWeak(less) && Ascending(s, less)
    ensures Sorted(s, less) == s
  {
    if s != [] {
      AscendingTail(s, less);
      SortedFixpoint(s[1..], less);
      assert Insert(s[0], s[1..], less) == [s[0]] + s[1..];
      assert s == [s[0]] + s[1..];
    }
  }

  /** In key order, equal keys by ascending `at`. */
  ghost predicate KeysThen<T>(s: seq<T>, less: (T, T) -> bool, at: T -> int) {
    forall i, j | 0 <= i < j < |s| :: less(s[i], s[j]) || (!less(s[j], s[i]) && at(s[i]) < at(s[j]))
  }

  lemma KeysThenTail<T>(s: seq<T>, less: (T, T) -> bool, at: T -> int)
    requires KeysThen(s, less, at) && s != []
    ensures KeysThen(s[1..], less, at)
  {
    var rest := s[1..];
    forall i, j | 0 <= i < j < |rest|
      ensures less(rest[i], rest[j]) || (!less(rest[j], rest[i]) && at(rest[i]) < at(rest[j]))
    {
      assert s[i + 1] == rest[i] && s[j + 1] == rest[j];
    }
  }

  lemma KeysThenCons<T>(x: T, s: seq<T>, less: (T, T) -> bool, at: T -> int)
    requires KeysThen(s, less, at)
    requires forall y | y in s :: less(x, y) || (!less(y, x) && at(x) < at(y))
    ensures KeysThen([x] + s, less, at)
  {
    var r := [x] + s;
    forall i, j | 0 <= i < j < |r| ensures less(r[i], r[j]) || (!less(r[j], r[i]) && at(r[i]) < at(r[j])) {
      assert r[j] == s[j - 1];
      if i > 0 { assert r[i] == s[i - 1]; }
    }
  }

  lemma {:induction false} InsertStable<T(!new)>(x: T, s: seq<T>, less: (T, T) -> bool, at: T -> int)
    requires StrictWeak(less) && KeysThen(s, less, at) && forall y | y in s :: at(x) < at(y)
    ensures KeysThen(Insert(x, s, less), less, at)
  {
    if s == [] {
    } else if less(s[0], x) {
      var rest := s[1..];
      KeysThenTail(s, less, at);
      InsertStable(x, rest, less, at);
      var tail := Insert(x, rest, less);
      forall y | y in tail ensures less(s[0], y) || (!less(y, s[0]) && at(s[0]) < at(y)) {
        assert y in multiset(tail);
        if y != x {
          var k :| 0 <= k < |rest| && rest[k] == y;
          assert s[k + 1] == y;
        }
      }
      KeysThenCons(s[0], tail, less, at);
    } else {
      forall y | y in s ensures less(x, y) || (!less(y, x) && at(x) < at(y)) {
        var k :| 0 <= k < |s| && s[k] == y;
        assert k > 0 ==> !less(s[k], s[0]);
      }
      KeysThenCons(x, s, less, at);
    }
  }

  /** The sort is stable: equal keys keep the order they had. */
  lemma {:induction false} SortedStable<T(!new)>(s: seq<T>, less: (T, T) -> bool, at: T -> int)
    requires StrictWeak(less) && forall i, j | 0 <= i < j < |s| :: at(s[i]) < at(s[j])
    ensures KeysThen(Sorted(s, less), less, at)
  {
    if s != [] {
      var rest := s[1..];
      assert forall k | 0 <= k < |rest| :: rest[k] == s[k + 1];
      SortedStable(rest, less, at);
      forall y | y in Sorted(rest, less) ensures at(s[0]) < at(y) {
        assert y in multiset(Sorted(rest, less));
        var k :| 0 <= k < |rest| && rest[k] == y;
        assert at(s[0]) < at(s[k + 1]);
      }
      InsertStable(s[0], Sorted(rest, less), less, at);
    }
  }

  // ----- strictly sorted sequences

  ghost predicate Strictly<T>(s: seq<T>, less: (T, T) -> bool) {
    forall i, j | 0 <= i < j < |s| :: less(s[i], s[j])
  }

  ghost predicate Asymmetric<T(!new)>(less: (T, T) -> bool) {
    forall a, b :: less(a, b) ==> !less(b, a)
  }

  lemma StrictlyDistinct<T(!new)>(s: seq<T>, less: (T, T) -> bool)
    requires Asymmetric(less) && Strictly(s, less)
    ensures Distinct(s)
  {
    forall i, j | 0 <= i < j < |s| ensures s[i] != s[j] { assert less(s[i], s[j]); }
  }

  lemma FirstLeast<T(!new)>(s: seq<T>, less: (T, T) -> bool, x: T)
    requires Strictly(s, less) && x in Elements(s)
    ensures s != [] && (x == s[0] || less(s[0], x))
  {
    var i :| 0 <= i < |s| && s[i] == x;
    if i > 0 { assert less(s[0], s[i]); }
  }

  lemma StrictlyTail<T(!new)>(s: seq<T>, less: (T, T) -> bool)
    requires Asymmetric(less) && Strictly(s, less) && s != []
    ensures Strictly(s[1..], less) && Elements(s[1..]) == Elements(s) - {s[0]}
  {
    StrictlyDistinct(s, less);
    assert forall k | 0 <= k < |s[1..]| :: s[1..][k] == s[k + 1];
    forall x ensures x in Elements(s[1..]) <==> x in Elements(s) - {s[0]} { TailElements(s, x); }
  }

  /** A set has at most one strictly sorted listing. */
  lemma {:induction false} StrictlyUnique<T(!new)>(a: seq<T>, b: seq<T>, less: (T, T) -> bool)
    requires Asymmetric(less) && Strictly(a, less) && Strictly(b, less) && Elements(a) == Elements(b)
    ensures a == b
  {
    if a != [] { assert a[0] in Elements(a); }
    if b != [] { assert b[0] in Elements(b); }
    if a != [] {
      FirstLeast(a, less, b[0]);
      FirstLeast(b, less, a[0]);
      StrictlyTail(a, less);
      StrictlyTail(b, less);
      StrictlyUnique(a[1..], b[1..], less);
      assert a == [a[0]] + a[1..] && b == [b[0]] + b[1..];
    }
  }

  lemma TailElements<T>(s: seq<T>, x: T)
    requires s != [] && Distinct(s)
    ensures x in Elements(s[1..]) <==> x in Elements(s) && x != s[0]
  {
    if x in s[1..] {
      var k :| 0 <= k < |s[1..]| && s[1..][k] == x;
      assert s[k + 1] == x;
    }
    if x in s && x != s[0] {
      var k :| 0 <= k < |s| && s[k] == x;
      assert s[1..][k - 1] == x;
    }
  }

  ghost predicate Transitive<T(!new)>(less: (T, T) -> bool) {
    forall a, b, c :: less(a, b) && less(b, c) ==> less(a, c)
  }

  ghost predicate TotalOn<T>(items: set<T>, less: (T, T) -> bool) {
    forall a, b | a in items && b in items && a != b :: less(a, b) || less(b, a)
  }

  method Least<T(==, !new)>(items: set<T>, less: (T, T) -> bool) returns (best: T)
    requires items != {} && Asymmetric(less) && Transitive(less) && TotalOn(items, less)
    ensures best in items && forall x | x in items && x != best :: less(best, x)
  {
    best :| best in items;
    var left := items - {best};
    while left != {}
      invariant left <= items && best in items - left
      invariant forall x | x in items - left && x != best :: less(best, x)
      decreases |left|
    {
      var x :| x in left;
      assert less(best, x) || less(x, best);
      if less(x, best) { best := x; }
      left := left - {x};
    }
  }

  /** A finite set has an ordered list. */
  lemma {:induction false} OrderExists<T(!new)>(items: set<T>, less: (T, T) -> bool) returns (r: seq<T>)
    requires Asymmetric(less) && Transitive(less) && TotalOn(items, less)
    ensures Strictly(r, less) && Elements(r) == items
    decreases |items|
  {
    if items == {} {
      r := [];
    } else {
      var x := LeastExists(items, less);
      var rest := OrderExists(items - {x}, less);
      r := [x] + rest;
      assert forall i | 0 <= i < |rest| :: rest[i] in Elements(rest);
      forall y ensures y in Elements(r) <==> y in items { assert y in r <==> y == x || y in Elements(rest); }
    }
  }

  lemma {:induction false} LeastExists<T(!new)>(items: set<T>, less: (T, T) -> bool) returns (x: T)
    requires items != {} && Asymmetric(less) && Transitive(less) && TotalOn(items, less)
    ensures x in items && forall y | y in items && y != x :: less(x, y)
    decreases |items|
  {
    x :| x in items;
    if items != {x} {
      var y := LeastExists(items - {x}, less);
      if less(y, x) { x := y; }
    }
  }

  /** `ORDER BY` a strict total order. */
  method OrderBy<T(==, !new)>(items: set<T>, less: (T, T) -> bool) returns (r: seq<T>)
    requires Asymmetric(less) && Transitive(less) && TotalOn(items, less)
    ensures Strictly(r, less) && Elements(r) == items
  {
    r := [];
    var left := items;
    while left != {}
      invariant left <= items && Elements(r) == items - left && Strictly(r, less)
      invariant forall x, y | x in r && y in left :: less(x, y)
      decreases |left|
    {
      var x := Least(left, less);
      assert forall y | y in r :: less(y, x);
      forall i, j | 0 <= i < j < |r + [x]| ensures less((r + [x])[i], (r + [x])[j]) {
        if j == |r| { assert r[i] in r; }
      }
      ElementsSnoc(r, x);
      r := r + [x];
      left := left - {x};
    }
  }

  lemma ElementsSnoc<T>(s: seq<T>, x: T)
    ensures Elements(s + [x]) == Elements(s) + {x}
  {
    assert (s + [x])[|s|] == x;
    forall y ensures y in Elements(s + [x]) <==> y in Elements(s) + {x} {}
  }
}
