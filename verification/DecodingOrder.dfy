/** In which order `_bounded_decodings` (06_waf_log_analysis.py) lists what it finds: for each value the
    percent decoding first, then its tokens as they stand, each new value once. */
module DecodingOrder {
  import opened Common
  import opened Digest
  import opened Decodings

  // ----- tokens

  ghost function ReadableAt(d: Decoders, value: Bytes): nat -> bool {
    (k: nat) => k < |d.tokens(value)| && Readable(d.tokens(value)[k])
  }

  /** The readable tokens among the first `n` are listed as they stand in the value. */
  lemma {:induction false} TokenOrder(d: Decoders, value: Bytes, n: nat) returns (at: seq<nat>)
    ensures var ts := TokensUpTo(d, value, n);
      && Picks(at, ReadableAt(d, value), n) && |at| == |ts|
      && forall i | 0 <= i < |at| :: ts[i] == (Base64, d.tokens(value)[at[i]].decoded.value)
  {
    if n == 0 {
      at := [];
    } else {
      var before := TokenOrder(d, value, n - 1);
      at := before + if ReadableAt(d, value)(n - 1) then [n - 1] else [];
      PicksSnoc(before, ReadableAt(d, value), n - 1);
      assert forall i | 0 <= i < |before| :: TokensUpTo(d, value, n)[i] == TokensUpTo(d, value, n - 1)[i];
    }
  }

  /** The percent decoding of a value comes before its tokens. */
  lemma PercentFirst(d: Decoders, value: Bytes, n: nat)
    ensures var ts := Listing(d, value, n);
      && (d.percent(value).Some? ==>
            |ts| > 0 && ts[0] == (UrlPercent, d.percent(value).value) && ts[1..] == TokensUpTo(d, value, n))
      && (d.percent(value).None? ==> ts == TokensUpTo(d, value, n))
  {
    assert [] + TokensUpTo(d, value, n) == TokensUpTo(d, value, n);
  }

  // ----- new values

  /** Position `k` is the first that gives its value, which fits and was not known. */
  predicate IsNew(ts: Transforms, known: set<Bytes>, k: nat) {
    && k < |ts| && |ts[k].1| <= MAX_DECODED_BYTES && ts[k].1 !in known
    && forall j | 0 <= j < k :: ts[j].1 != ts[k].1
  }

  ghost function NewAt(ts: Transforms, known: set<Bytes>): nat -> bool {
    (k: nat) => IsNew(ts, known, k)
  }

  function PreviewOf(from: Preview, t: (Codec, Bytes)): Preview {
    Preview(t.1, from.path + [t.0], from.depth + 1)
  }

  lemma {:induction false} NewFromSnoc(from: Preview, ts: Transforms, t: (Codec, Bytes), known: set<Bytes>)
    ensures NewFrom(from, ts + [t], known) == NewFrom(from, ts, known) +
      if IsNew(ts + [t], known, |ts|) then [PreviewOf(from, t)] else []
  {
    var all := ts + [t];
    if ts == [] {
      assert all[1..] == [];
    } else {
      assert all[0] == ts[0] && all[1..] == ts[1..] + [t];
      var skip := |ts[0].1| > MAX_DECODED_BYTES || ts[0].1 in known;
      var next := if skip then known else known + {ts[0].1};
      NewFromSnoc(from, ts[1..], t, next);
      assert IsNew(all, known, |ts|) <==> IsNew(all[1..], next, |ts| - 1) by {
        assert forall j | 0 <= j < |ts| - 1 :: all[1..][j] == all[j + 1];
        assert forall j | 1 <= j < |ts| :: all[j] == all[1..][j - 1];
      }
    }
  }

  /** The new previews are those of the positions that give a new value, in order. */
  lemma {:induction false} NewOrder(from: Preview, ts: Transforms, known: set<Bytes>) returns (at: seq<nat>)
    ensures var r := NewFrom(from, ts, known);
      && Picks(at, NewAt(ts, known), |ts|) && |at| == |r|
      && forall i | 0 <= i < |at| :: r[i] == PreviewOf(from, ts[at[i]])
  {
    if ts == [] {
      at := [];
    } else {
      var n := |ts| - 1;
      var front := ts[..n];
      assert ts == front + [ts[n]];
      var before := NewOrder(from, front, known);
      NewFromSnoc(from, front, ts[n], known);
      at := before + if NewAt(ts, known)(n) then [n] else [];
      FrontPicks(ts, known, before);
      PicksSnoc(before, NewAt(ts, known), n);
      assert forall i | 0 <= i < |before| :: ts[before[i]] == front[before[i]];
    }
  }

  lemma FrontPicks(ts: Transforms, known: set<Bytes>, at: seq<nat>)
    requires ts != [] && Picks(at, NewAt(ts[..|ts| - 1], known), |ts| - 1)
    ensures Picks(at, NewAt(ts, known), |ts| - 1)
  {
    forall k: nat | k < |ts| - 1 ensures NewAt(ts, known)(k) == NewAt(ts[..|ts| - 1], known)(k) {}
  }

  // ----- levels

  lemma {:induction false} AllDepth(d: Decoders, queue: seq<Preview>, candidates: nat, known: set<Bytes>, depth: nat)
    requires forall p | p in queue :: p.depth == depth
    ensures forall p | p in NewFromAll(d, queue, candidates, known) :: p.depth == depth + 1
  {
    if queue != [] {
      var added := NewFrom(queue[0], Listing(d, queue[0].value, Budget(candidates)), known);
      NewDepth(queue[0], Listing(d, queue[0].value, Budget(candidates)), known);
      AllDepth(d, queue[1..], candidates + |d.tokens(queue[0].value)|, known + Values(added), depth);
    }
  }

  /** What one transform reaches is listed before what takes two. */
  lemma LevelsInOrder(d: Decoders, payload: Bytes)
    ensures var all := AllPreviews(d, payload); forall i, j | 0 <= i < j < |all| :: all[i].depth <= all[j].depth
  {
    var first := NewFrom(Start(payload), Listing(d, payload, MAX_BASE64_CANDIDATES), {payload});
    var second := NewFromAll(d, first, |d.tokens(payload)|, {payload} + Values(first));
    NewDepth(Start(payload), Listing(d, payload, MAX_BASE64_CANDIDATES), {payload});
    AllDepth(d, first, |d.tokens(payload)|, {payload} + Values(first), 1);
    var all := first + second;
    forall i, j | 0 <= i < j < |all| ensures all[i].depth <= all[j].depth {
      if i < |first| { assert all[i] in first; } else { assert all[i] in second && all[j] in second; }
      if j < |first| { assert all[j] in first; } else { assert all[j] in second; }
    }
  }
}
