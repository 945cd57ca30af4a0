/** Cutting one block's text into bounded slices (`_split_text`, chunking.py). */
module TextSlicing {
  import opened Common
  import opened Text

  datatype Slice = Slice(start: nat, end: nat, text: string)

  const SEPARATORS: seq<string> := ["\n\n", "\n", ". ", "\U{3002}", " "]

  predicate OccursAt(text: string, separator: string, at: int) {
    0 <= at && at + |separator| <= |text| && text[at..at + |separator|] == separator
  }

  /** `text.rfind(separator, lo, hi)`: the last occurrence inside the window, if any. */
  function RFind(text: string, separator: string, lo: nat, hi: int): (at: Option<nat>)
    requires hi <= |text|
    ensures at.Some? ==> lo <= at.value && at.value + |separator| <= hi && OccursAt(text, separator, at.value)
    ensures at.Some? ==> forall i | at.value < i && i + |separator| <= hi :: !OccursAt(text, separator, i)
    ensures at.None? ==> forall i | lo <= i && i + |separator| <= hi :: !OccursAt(text, separator, i)
    decreases hi
  {
    if hi - |separator| < lo then None
    else if OccursAt(text, separator, hi - |separator|) then Some(hi - |separator|)
    else RFind(text, separator, lo, hi - 1)
  }

  /** How much of a separator stays with the text before it: a full stop keeps its dot. */
  function KeptLength(separator: string): nat {
    if separator == ". " then 1 else |separator|
  }

  predicate NonEmptyAll(separators: seq<string>) {
    forall k | 0 <= k < |separators| :: |separators[k]| > 0
  }

  /** The most preferred separator found in the window decides where to cut. */
  function CutAt(text: string, separators: seq<string>, lo: nat, hi: nat): (cut: nat)
    requires hi <= |text|
    requires NonEmptyAll(separators)
    ensures cut <= hi
    ensures cut == hi || lo < cut
  {
    if separators == [] then hi
    else
      var at := RFind(text, separators[0], lo, hi);
      if at.Some? then at.value + KeptLength(separators[0]) else CutAt(text, separators[1..], lo, hi)
  }

  function PieceEnd(text: string, cursor: nat, maximum: nat): (end: nat)
    requires cursor < |text| && maximum > 0
    ensures cursor < end <= |text| && end <= cursor + maximum
  {
    if cursor + maximum >= |text| then |text|
    else CutAt(text, SEPARATORS, cursor + maximum / 2, cursor + maximum)
  }

  function SkipSpace(text: string, cursor: nat): (r: nat)
    requires cursor <= |text|
    ensures cursor <= r <= |text|
    ensures forall i | cursor <= i < r :: IsSpace(text[i])
    ensures r < |text| ==> !IsSpace(text[r])
    decreases |text| - cursor
  {
    if cursor < |text| && IsSpace(text[cursor]) then SkipSpace(text, cursor + 1) else cursor
  }

  function SliceTo(text: string, start: nat, end: nat): Slice
    requires start <= end <= |text|
  {
    var stripped := RightStrip(text[start..end]);
    Slice(start, start + |stripped|, stripped)
  }

  /** Where a slice starting at each position ends. */
  function Cuts(text: string, maximum: nat): nat -> nat
    requires maximum > 0
  {
    (start: nat) => if start < |text| then PieceEnd(text, start, maximum) else start
  }

  ghost predicate Advances(text: string, maximum: nat, cuts: nat -> nat) {
    forall start: nat | start < |text| :: start < cuts(start) <= |text| && cuts(start) <= start + maximum
  }

  lemma CutsAdvance(text: string, maximum: nat)
    requires maximum > 0
    ensures Advances(text, maximum, Cuts(text, maximum))
  {
  }

  /** The slices the loop emits from `cursor` on. */
  ghost function Slices(text: string, maximum: nat, cuts: nat -> nat, cursor: nat): seq<Slice>
    requires Advances(text, maximum, cuts) && cursor <= |text|
    decreases |text| - cursor
  {
    var start := SkipSpace(text, cursor);
    if start >= |text| then []
    else [SliceTo(text, start, cuts(start))] + Slices(text, maximum, cuts, cuts(start))
  }

  ghost function TextSlices(text: string, maximum: nat): seq<Slice>
    requires maximum > 0
  {
    CutsAdvance(text, maximum);
    Slices(text, maximum, Cuts(text, maximum), 0)
  }

  // ----- the loops

  method FindCut(text: string, lo: nat, hi: nat) returns (cut: nat)
    requires hi <= |text|
    ensures cut == CutAt(text, SEPARATORS, lo, hi)
  {
    for i := 0 to |SEPARATORS|
      invariant CutAt(text, SEPARATORS[i..], lo, hi) == CutAt(text, SEPARATORS, lo, hi)
    {
      assert SEPARATORS[i..][0] == SEPARATORS[i] && SEPARATORS[i..][1..] == SEPARATORS[i + 1..];
      var at := RFind(text, SEPARATORS[i], lo, hi);
      if at.Some? { return at.value + KeptLength(SEPARATORS[i]); }
    }
    return hi;
  }

  /** The inner loop that moves the cursor past whitespace. */
  method SkipSpaces(text: string, from: nat) returns (cursor: nat)
    requires from <= |text|
    ensures cursor == SkipSpace(text, from)
  {
    cursor := from;
    while cursor < |text| && IsSpace(text[cursor])
      invariant from <= cursor <= |text|
      invariant SkipSpace(text, cursor) == SkipSpace(text, from)
    {
      cursor := cursor + 1;
    }
  }

  method SplitText(text: string, maximum: nat) returns (result: seq<Slice>)
    requires maximum > 0
    ensures result == TextSlices(text, maximum)
  {
    result := [];
    var cursor := 0;
    ghost var cuts := Cuts(text, maximum);
    CutsAdvance(text, maximum);
    while cursor < |text|
      invariant 0 <= cursor <= |text|
      invariant result + Slices(text, maximum, cuts, cursor) == Slices(text, maximum, cuts, 0)
    {
      cursor := SkipSpaces(text, cursor);
      if cursor < |text| {
        var end := FindEnd(text, cursor, maximum);
        assert end == cuts(cursor);
        KeepsFirst(text, cursor, end);
        result := AppendSlice(result, text, cursor, end);
        cursor := if end >= cursor + 1 then end else cursor + 1;
      }
    }
  }

  method FindEnd(text: string, cursor: nat, maximum: nat) returns (end: nat)
    requires cursor < |text| && maximum > 0
    ensures end == PieceEnd(text, cursor, maximum)
  {
    var hardEnd := if cursor + maximum <= |text| then cursor + maximum else |text|;
    end := hardEnd;
    if hardEnd < |text| { end := FindCut(text, cursor + maximum / 2, hardEnd); }
  }

  method AppendSlice(result: seq<Slice>, text: string, start: nat, end: nat) returns (longer: seq<Slice>)
    requires start <= end <= |text|
    ensures longer == if RightStrip(text[start..end]) == [] then result else result + [SliceTo(text, start, end)]
  {
    var stripped := RightStrip(text[start..end]);
    longer := if stripped != [] then result + [Slice(start, start + |stripped|, stripped)] else result;
  }

  // ----- what the slices are

  lemma KeepsFirst(text: string, start: nat, end: nat)
    requires start < end <= |text| && !IsSpace(text[start])
    ensures RightStrip(text[start..end]) != []
  {
  }

  /** An exact, non-empty, bounded slice with no whitespace at either edge. */
  ghost predicate ExactSlice(text: string, maximum: nat, s: Slice) {
    && s.start < s.end <= |text| && s.end - s.start <= maximum
    && s.text == text[s.start..s.end]
    && !IsSpace(text[s.start]) && !IsSpace(text[s.end - 1])
  }

  lemma SliceExact(text: string, maximum: nat, start: nat, end: nat)
    requires start < end <= |text| && end - start <= maximum && !IsSpace(text[start])
    ensures ExactSlice(text, maximum, SliceTo(text, start, end)) && SliceTo(text, start, end).end <= end
    ensures forall i | SliceTo(text, start, end).end <= i < end :: IsSpace(text[i])
  {
  }

  predicate InSlice(s: Slice, i: int) {
    s.start <= i < s.end
  }

  lemma SlicesUnfold(text: string, maximum: nat, cuts: nat -> nat, cursor: nat, k: nat)
    requires Advances(text, maximum, cuts) && cursor <= |text| && k < |Slices(text, maximum, cuts, cursor)|
    ensures var start := SkipSpace(text, cursor);
      && start < |text| && start < cuts(start) <= |text| && cuts(start) - start <= maximum && !IsSpace(text[start])
      && Slices(text, maximum, cuts, cursor)[0] == SliceTo(text, start, cuts(start))
      && (k > 0 ==>
            && k - 1 < |Slices(text, maximum, cuts, cuts(start))|
            && Slices(text, maximum, cuts, cursor)[k] == Slices(text, maximum, cuts, cuts(start))[k - 1])
  {
  }

  lemma {:induction false} SlicesExact(text: string, maximum: nat, cuts: nat -> nat, cursor: nat, k: nat)
    requires Advances(text, maximum, cuts) && cursor <= |text| && k < |Slices(text, maximum, cuts, cursor)|
    ensures var s := Slices(text, maximum, cuts, cursor)[k]; ExactSlice(text, maximum, s) && cursor <= s.start
    decreases |text| - cursor
  {
    var start := SkipSpace(text, cursor);
    var end := cuts(start);
    SlicesUnfold(text, maximum, cuts, cursor, k);
    if k == 0 { SliceExact(text, maximum, start, end); } else { SlicesExact(text, maximum, cuts, end, k - 1); }
  }

  lemma {:induction false} SlicesOrdered(text: string, maximum: nat, cuts: nat -> nat, cursor: nat, k: nat, l: nat)
    requires Advances(text, maximum, cuts) && cursor <= |text| && k < l < |Slices(text, maximum, cuts, cursor)|
    ensures var slices := Slices(text, maximum, cuts, cursor); slices[k].end <= slices[l].start
    decreases |text| - cursor
  {
    var start := SkipSpace(text, cursor);
    var end := cuts(start);
    SlicesUnfold(text, maximum, cuts, cursor, k);
    SlicesUnfold(text, maximum, cuts, cursor, l);
    if k == 0 {
      SliceExact(text, maximum, start, end);
      SlicesExact(text, maximum, cuts, end, l - 1);
    } else {
      SlicesOrdered(text, maximum, cuts, end, k - 1, l - 1);
    }
  }

  lemma {:induction false} SlicesCover(
    text: string, maximum: nat, cuts: nat -> nat, cursor: nat, i: nat) returns (k: nat)
    requires Advances(text, maximum, cuts) && cursor <= i < |text| && !IsSpace(text[i])
    ensures k < |Slices(text, maximum, cuts, cursor)| && InSlice(Slices(text, maximum, cuts, cursor)[k], i)
    decreases |text| - cursor
  {
    var start := SkipSpace(text, cursor);
    var end := cuts(start);
    if i < end {
      SliceExact(text, maximum, start, end);
      k := 0;
    } else {
      k := SlicesCover(text, maximum, cuts, end, i);
      k := k + 1;
    }
  }

  /** In text order, disjoint, exact, every non-space character in exactly one slice. */
  ghost predicate Partitions(text: string, maximum: nat, slices: seq<Slice>) {
    && (forall k | 0 <= k < |slices| :: ExactSlice(text, maximum, slices[k]))
    && (forall k, l | 0 <= k < l < |slices| :: slices[k].end <= slices[l].start)
    && forall i | 0 <= i < |text| && !IsSpace(text[i]) :: OnceCovered(slices, i)
  }

  lemma SlicesPartition(text: string, maximum: nat, cuts: nat -> nat)
    requires Advances(text, maximum, cuts)
    ensures Partitions(text, maximum, Slices(text, maximum, cuts, 0))
  {
    var slices := Slices(text, maximum, cuts, 0);
    forall k | 0 <= k < |slices|
      ensures ExactSlice(text, maximum, slices[k])
    {
      SlicesExact(text, maximum, cuts, 0, k);
    }
    forall k, l | 0 <= k < l < |slices| ensures slices[k].end <= slices[l].start {
      SlicesOrdered(text, maximum, cuts, 0, k, l);
    }
    forall i | 0 <= i < |text| && !IsSpace(text[i]) ensures OnceCovered(slices, i) {
      var k := SlicesCover(text, maximum, cuts, 0, i);
      CoveredOnce(slices, i, k);
    }
  }

  lemma CoveredOnce(slices: seq<Slice>, i: int, k: nat)
    requires k < |slices| && InSlice(slices[k], i)
    requires forall m, n | 0 <= m < n < |slices| :: slices[m].end <= slices[n].start
    ensures OnlySlice(slices, i, k)
  {
  }

  /** `_split_text` loses nothing but whitespace, for every text and every positive maximum. */
  lemma SplitConserves(text: string, maximum: nat)
    requires maximum > 0
    ensures Partitions(text, maximum, TextSlices(text, maximum))
  {
    CutsAdvance(text, maximum);
    SlicesPartition(text, maximum, Cuts(text, maximum));
  }

  ghost predicate OnlySlice(slices: seq<Slice>, i: int, k: int) {
    0 <= k < |slices| && InSlice(slices[k], i) && forall l | 0 <= l < |slices| && l != k :: !InSlice(slices[l], i)
  }

  ghost predicate OnceCovered(slices: seq<Slice>, i: int) {
    exists k :: OnlySlice(slices, i, k)
  }

  /** A cut before the hard limit falls right behind the last occurrence, in the second half of
      the window, of a separator none of the more preferred ones outranks. */
  lemma {:induction false} CutMeaning(text: string, separators: seq<string>, lo: nat, hi: nat)
    requires hi <= |text| && NonEmptyAll(separators)
    ensures var cut := CutAt(text, separators, lo, hi);
      || (cut == hi && forall k, i | 0 <= k < |separators| && lo <= i && i + |separators[k]| <= hi ::
            !OccursAt(text, separators[k], i))
      || exists k :: 0 <= k < |separators| && CutBehind(text, separators, lo, hi, k, cut)
  {
    if separators != [] {
      var at := RFind(text, separators[0], lo, hi);
      if at.Some? {
        assert CutBehind(text, separators, lo, hi, 0, CutAt(text, separators, lo, hi));
      } else {
        var rest := separators[1..];
        assert forall j | 0 <= j < |rest| :: rest[j] == separators[j + 1];
        CutMeaning(text, rest, lo, hi);
        if k :| 0 <= k < |rest| && CutBehind(text, rest, lo, hi, k, CutAt(text, rest, lo, hi)) {
          assert CutBehind(text, separators, lo, hi, k + 1, CutAt(text, separators, lo, hi));
        }
      }
    }
  }

  ghost predicate CutBehind(text: string, separators: seq<string>, lo: nat, hi: nat, k: nat, cut: nat)
    requires k < |separators|
  {
    var at := cut - KeptLength(separators[k]);
    && lo <= at && at + |separators[k]| <= hi && OccursAt(text, separators[k], at)
    && (forall i | at < i && i + |separators[k]| <= hi :: !OccursAt(text, separators[k], i))
    && forall j, i | 0 <= j < k && lo <= i && i + |separators[j]| <= hi :: !OccursAt(text, separators[j], i)
  }
}
