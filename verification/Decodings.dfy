/** `_bounded_decodings` (06_waf_log_analysis.py): a bounded breadth-first search over what a payload
    decodes to, with a flag that says whether anything was cut off. The decoders are parameters. */
module Decodings {
  import opened Common
  import opened Digest

  type Bytes = seq<Byte>

  /** A match of the Base64 token pattern, and what `b64decode(validate=True)` makes of it. */
  datatype Token = Token(length: nat, decoded: Option<Bytes>)

  /** `percent`: the URL-decoded value when it contains an escape. `tokens`: the matches, in order. */
  datatype Decoders = Decoders(percent: Bytes -> Option<Bytes>, tokens: Bytes -> seq<Token>)

  datatype Codec = UrlPercent | Base64

  datatype Preview = Preview(value: Bytes, path: seq<Codec>, depth: nat)

  const MAX_DECODE_DEPTH: nat := 2
  const MAX_DECODED_BYTES: nat := 4096
  const MAX_DECODED_PREVIEWS: nat := 4
  const MAX_BASE64_CANDIDATES: nat := 8

  // ----- legal transforms

  predicate Readable(t: Token) {
    t.length <= MAX_DECODED_BYTES && t.length % 4 == 0 && t.decoded.Some?
  }

  /** One of the first `n` tokens of the value decodes to `to`. */
  ghost predicate TokenGives(d: Decoders, value: Bytes, n: nat, to: Bytes) {
    exists i ::
      0 <= i < |d.tokens(value)| && i < n && Readable(d.tokens(value)[i]) && d.tokens(value)[i].decoded.value == to
  }

  /** One transform of a value, by its codec. */
  ghost predicate StepBy(d: Decoders, codec: Codec, value: Bytes, to: Bytes) {
    && |to| <= MAX_DECODED_BYTES
    && match codec
       case UrlPercent => d.percent(value) == Some(to)
       case Base64 => TokenGives(d, value, |d.tokens(value)|, to)
  }

  ghost predicate Legal(d: Decoders, value: Bytes, to: Bytes) {
    StepBy(d, UrlPercent, value, to) || StepBy(d, Base64, value, to)
  }

  /** The path leads from the payload to the value, one legal transform at a time. */
  ghost predicate Derives(d: Decoders, payload: Bytes, path: seq<Codec>, value: Bytes) {
    if path == [] then value == payload
    else
      var earlier, last := path[..|path| - 1], path[|path| - 1];
      exists from :: Derives(d, payload, earlier, from) && StepBy(d, last, from, value)
  }

  // ----- one value's transformations

  type Transforms = seq<(Codec, Bytes)>

  /** Found by percent decoding or by one of the first `n` tokens, and small enough. */
  ghost predicate Within(d: Decoders, value: Bytes, n: nat, to: Bytes) {
    |to| <= MAX_DECODED_BYTES && (d.percent(value) == Some(to) || TokenGives(d, value, n, to))
  }

  /** Every listed transformation that fits is real and within the first `n` tokens. */
  ghost predicate Real(d: Decoders, value: Bytes, n: nat, ts: Transforms) {
    forall i | 0 <= i < |ts| && |ts[i].1| <= MAX_DECODED_BYTES ::
      StepBy(d, ts[i].0, value, ts[i].1) && Within(d, value, n, ts[i].1)
  }

  /** How many tokens of a value are still considered after `candidates` earlier ones. */
  function Budget(candidates: nat): nat {
    if candidates < MAX_BASE64_CANDIDATES then MAX_BASE64_CANDIDATES - candidates else 0
  }

  ghost predicate Among(ts: Transforms, to: Bytes) {
    exists i :: 0 <= i < |ts| && ts[i].1 == to
  }

  /** The transformations found with the first `n` tokens are listed. */
  ghost predicate Lists(d: Decoders, value: Bytes, n: nat, ts: Transforms) {
    && (d.percent(value).Some? ==> Among(ts, d.percent(value).value))
    && forall to | TokenGives(d, value, n, to) :: Among(ts, to)
  }

  // ----- the reference: every value's transformations in order, first level before second

  /** What the readable ones among the first `n` tokens give, in order. */
  function TokensUpTo(d: Decoders, value: Bytes, n: nat): Transforms {
    if n == 0 then []
    else
      TokensUpTo(d, value, n - 1) +
      if n <= |d.tokens(value)| && Readable(d.tokens(value)[n - 1])
      then [(Base64, d.tokens(value)[n - 1].decoded.value)] else []
  }

  /** The percent decoding, then the tokens. */
  function Listing(d: Decoders, value: Bytes, n: nat): Transforms {
    (if d.percent(value).Some? then [(UrlPercent, d.percent(value).value)] else []) + TokensUpTo(d, value, n)
  }

  /** The previews that transformations of `from` add to the known values. */
  function NewFrom(from: Preview, ts: Transforms, known: set<Bytes>): seq<Preview> {
    if ts == [] then []
    else
      var codec, to := ts[0].0, ts[0].1;
      if |to| > MAX_DECODED_BYTES || to in known then NewFrom(from, ts[1..], known)
      else [Preview(to, from.path + [codec], from.depth + 1)] + NewFrom(from, ts[1..], known + {to})
  }

  function Values(previews: seq<Preview>): set<Bytes> {
    set p | p in previews :: p.value
  }

  /** What the values of a queue give one after the other, `candidates` tokens having been considered. */
  function NewFromAll(d: Decoders, queue: seq<Preview>, candidates: nat, known: set<Bytes>): seq<Preview> {
    if queue == [] then []
    else
      var value := queue[0].value;
      var added := NewFrom(queue[0], Listing(d, value, Budget(candidates)), known);
      added + NewFromAll(d, queue[1..], candidates + |d.tokens(value)|, known + Values(added))
  }

  function Start(payload: Bytes): Preview {
    Preview(payload, [], 0)
  }

  /** All previews of one level, then all of the next. */
  function AllPreviews(d: Decoders, payload: Bytes): seq<Preview> {
    var first := NewFrom(Start(payload), Listing(d, payload, MAX_BASE64_CANDIDATES), {payload});
    first + NewFromAll(d, first, |d.tokens(payload)|, {payload} + Values(first))
  }

  function FirstFour(s: seq<Preview>): seq<Preview> {
    if |s| <= MAX_DECODED_PREVIEWS then s else s[..MAX_DECODED_PREVIEWS]
  }

  lemma {:induction false} TokensBeyond(d: Decoders, value: Bytes, m: nat, n: nat)
    requires |d.tokens(value)| <= m <= n
    ensures TokensUpTo(d, value, n) == TokensUpTo(d, value, m)
  {
    if m < n { TokensBeyond(d, value, m, n - 1); }
  }

  /** A token over the size limit among the first `n`, or a token behind them. */
  ghost predicate TokenRaises(d: Decoders, value: Bytes, n: nat) {
    |d.tokens(value)| > n || LongToken(d, value, n)
  }

  lemma AmongSnoc(ts: Transforms, t: (Codec, Bytes))
    ensures forall to :: Among(ts + [t], to) <==> Among(ts, to) || to == t.1
  {
    forall to ensures Among(ts + [t], to) <==> Among(ts, to) || to == t.1 {
      assert (ts + [t])[|ts|] == t && forall i | 0 <= i < |ts| :: (ts + [t])[i] == ts[i];
      if i :| 0 <= i < |ts| && ts[i].1 == to { assert (ts + [t])[i].1 == to; }
    }
  }

  lemma GivesNext(d: Decoders, value: Bytes, n: nat, to: Bytes)
    requires n < |d.tokens(value)|
    ensures TokenGives(d, value, n + 1, to) <==>
      TokenGives(d, value, n, to) || (Readable(d.tokens(value)[n]) && d.tokens(value)[n].decoded.value == to)
  {
  }

  ghost predicate LongToken(d: Decoders, value: Bytes, n: nat) {
    exists i | 0 <= i < |d.tokens(value)| && i < n :: d.tokens(value)[i].length > MAX_DECODED_BYTES
  }

  lemma LongNext(d: Decoders, value: Bytes, n: nat)
    requires n < |d.tokens(value)|
    ensures LongToken(d, value, n + 1) <==> LongToken(d, value, n) || d.tokens(value)[n].length > MAX_DECODED_BYTES
  {
  }

  ghost predicate ListsTokens(d: Decoders, value: Bytes, n: nat, ts: Transforms) {
    forall to :: Among(ts, to) <==> TokenGives(d, value, n, to)
  }

  lemma {:induction false} TokensFacts(d: Decoders, value: Bytes, n: nat)
    ensures Real(d, value, n, TokensUpTo(d, value, n))
    ensures ListsTokens(d, value, n, TokensUpTo(d, value, n))
  {
    if n > 0 {
      TokensFacts(d, value, n - 1);
      if n <= |d.tokens(value)| {
        TokenFacts(d, value, n);
      } else {
        FewerGives(d, value, n - 1, n);
        FewerGives(d, value, n, n - 1);
        assert TokensUpTo(d, value, n) == TokensUpTo(d, value, n - 1) + [] == TokensUpTo(d, value, n - 1);
      }
    }
  }

  lemma TokenFacts(d: Decoders, value: Bytes, n: nat)
    requires 0 < n <= |d.tokens(value)| && Real(d, value, n - 1, TokensUpTo(d, value, n - 1))
    requires ListsTokens(d, value, n - 1, TokensUpTo(d, value, n - 1))
    ensures Real(d, value, n, TokensUpTo(d, value, n))
    ensures ListsTokens(d, value, n, TokensUpTo(d, value, n))
  {
    var m, before, token := n - 1, TokensUpTo(d, value, n - 1), d.tokens(value)[n - 1];
    forall to ensures TokenGives(d, value, n, to) <==>
      TokenGives(d, value, m, to) || (Readable(token) && token.decoded.value == to)
    {
      GivesNext(d, value, m, to);
    }
    if Readable(token) {
      AmongSnoc(before, (Base64, token.decoded.value));
      assert TokensUpTo(d, value, n) == before + [(Base64, token.decoded.value)];
      assert TokenGives(d, value, |d.tokens(value)|, token.decoded.value);
    } else {
      assert TokensUpTo(d, value, n) == before + [] == before;
    }
  }

  /** The listing holds real transformations only, and all of the first `n` tokens. */
  lemma ListingFacts(d: Decoders, value: Bytes, n: nat)
    ensures Real(d, value, n, Listing(d, value, n)) && Lists(d, value, n, Listing(d, value, n))
  {
    var front: Transforms := if d.percent(value).Some? then [(UrlPercent, d.percent(value).value)] else [];
    var tokens := TokensUpTo(d, value, n);
    TokensFacts(d, value, n);
    if d.percent(value).Some? { assert (front + tokens)[0].1 == d.percent(value).value; }
    forall to | TokenGives(d, value, n, to) ensures Among(front + tokens, to) {
      assert Among(tokens, to);
      var i :| 0 <= i < |tokens| && tokens[i].1 == to;
      assert (front + tokens)[|front| + i].1 == to;
    }
  }

  lemma ListingNext(d: Decoders, value: Bytes, n: nat)
    requires n < |d.tokens(value)|
    ensures Listing(d, value, n + 1) == Listing(d, value, n) +
      if Readable(d.tokens(value)[n]) then [(Base64, d.tokens(value)[n].decoded.value)] else []
  {
  }

  /** Percent decoding, then the tokens while the candidate count allows. */
  method Transform(d: Decoders, value: Bytes, candidates: nat, limit: bool)
    returns (ts: Transforms, count: nat, limited: bool)
    ensures ts == Listing(d, value, Budget(candidates))
    ensures candidates <= count && Budget(count) == Budget(candidates + |d.tokens(value)|)
    ensures limited <==> limit || TokenRaises(d, value, Budget(candidates))
  {
    ts, count, limited := [], candidates, limit;
    var escaped := d.percent(value);
    if escaped.Some? { ts := [(UrlPercent, escaped.value)]; }
    var tokens := d.tokens(value);
    var i := 0;
    var stop := false;
    while i < |tokens| && !stop
      invariant 0 <= i <= |tokens|
      invariant ts == Listing(d, value, i)
      invariant limited <==> limit || stop || LongToken(d, value, i)
      invariant !stop ==> count == candidates + i && (i > 0 ==> count <= MAX_BASE64_CANDIDATES)
      invariant i <= Budget(candidates)
      invariant stop ==>
        count > MAX_BASE64_CANDIDATES && count >= candidates && candidates + i >= MAX_BASE64_CANDIDATES && i < |tokens|
      decreases |tokens| - i, !stop
    {
      count := count + 1;
      if count > MAX_BASE64_CANDIDATES {
        limited := true;
        stop := true;
      } else {
        var token := tokens[i];
        ListingNext(d, value, i);
        LongNext(d, value, i);
        if token.length > MAX_DECODED_BYTES || token.length % 4 != 0 {
          if token.length > MAX_DECODED_BYTES { limited := true; }
        } else if token.decoded.Some? {
          ts := ts + [(Base64, token.decoded.value)];
        }
        i := i + 1;
      }
    }
    if !stop {
      TokensBeyond(d, value, i, Budget(candidates));
      LongBeyond(d, value, i, Budget(candidates));
    }
  }

  lemma LongBeyond(d: Decoders, value: Bytes, m: nat, n: nat)
    requires |d.tokens(value)| <= m <= n
    ensures LongToken(d, value, m) <==> LongToken(d, value, n)
  {
  }

  lemma FewerGives(d: Decoders, value: Bytes, m: nat, n: nat)
    requires m >= n || m >= |d.tokens(value)|
    ensures forall to :: TokenGives(d, value, n, to) ==> TokenGives(d, value, m, to)
  {
  }

  // ----- the search

  /** Every preview is a new value, found by `depth` legal transforms along its path. */
  ghost predicate Sound(d: Decoders, payload: Bytes, previews: seq<Preview>) {
    && |previews| <= MAX_DECODED_PREVIEWS
    && (forall i, j | 0 <= i < j < |previews| :: previews[i].value != previews[j].value)
    && forall i | 0 <= i < |previews| ::
         && previews[i].value != payload && 1 <= previews[i].depth <= MAX_DECODE_DEPTH
         && |previews[i].path| == previews[i].depth && Derives(d, payload, previews[i].path, previews[i].value)
  }

  /** What the search knows: the payload and the previewed values, each once. */
  ghost predicate Remembered(payload: Bytes, previews: seq<Preview>, seen: set<Bytes>) {
    seen == Values(previews) + {payload}
  }

  lemma AddPreview(
    d: Decoders, payload: Bytes, previews: seq<Preview>, seen: set<Bytes>, from: Preview, codec: Codec, to: Bytes)
    requires Sound(d, payload, previews) && Remembered(payload, previews, seen) && to !in seen
    requires |previews| < MAX_DECODED_PREVIEWS && from.depth < MAX_DECODE_DEPTH && |from.path| == from.depth
    requires Derives(d, payload, from.path, from.value) && StepBy(d, codec, from.value, to)
    ensures var longer := previews + [Preview(to, from.path + [codec], from.depth + 1)];
      Sound(d, payload, longer) && Remembered(payload, longer, seen + {to})
  {
    var p := Preview(to, from.path + [codec], from.depth + 1);
    var longer := previews + [p];
    assert p.path[..|p.path| - 1] == from.path && p.path[|p.path| - 1] == codec;
    assert Derives(d, payload, p.path, to);
    assert longer[|previews|] == p && forall i | 0 <= i < |previews| :: longer[i] == previews[i];
    forall x ensures x in Values(longer) <==> x in Values(previews) + {to} {
      if x in Values(previews) {
        var q :| q in previews && q.value == x;
        assert q in longer;
      }
      if x == to { assert p in longer; }
    }
    forall i | 0 <= i < |previews| ensures previews[i].value != to { assert previews[i] in previews; }
  }

  /** The previews added since `before` come from one value by one legal transform. */
  ghost predicate Added(
    d: Decoders, n: nat, from: Preview, before: seq<Preview>, known: set<Bytes>, previews: seq<Preview>)
  {
    && before <= previews
    && forall i | |before| <= i < |previews| :: AddedOne(d, n, from, known, previews[i])
  }

  ghost predicate AddedOne(d: Decoders, n: nat, from: Preview, known: set<Bytes>, p: Preview) {
    p.depth == from.depth + 1 && p.value !in known && Within(d, from.value, n, p.value)
  }

  lemma AddedSnoc(
    d: Decoders, n: nat, from: Preview, before: seq<Preview>, known: set<Bytes>, previews: seq<Preview>, p: Preview)
    requires Added(d, n, from, before, known, previews) && AddedOne(d, n, from, known, p)
    ensures Added(d, n, from, before, known, previews + [p])
    ensures (previews + [p])[|before|..] == previews[|before|..] + [p]
  {
    var longer := previews + [p];
    forall i | |before| <= i < |longer| ensures AddedOne(d, n, from, known, longer[i]) {
      if i < |previews| { assert longer[i] == previews[i]; }
    }
    assert longer[..|before|] == previews[..|before|];
  }

  /** The first `n` transformations that fit are known. */
  ghost predicate Covered(ts: Transforms, n: nat, seen: set<Bytes>)
    requires n <= |ts|
  {
    forall j | 0 <= j < n && |ts[j].1| <= MAX_DECODED_BYTES :: ts[j].1 in seen
  }

  ghost predicate Fit(ts: Transforms, n: nat)
    requires n <= |ts|
  {
    forall j | 0 <= j < n :: |ts[j].1| <= MAX_DECODED_BYTES
  }

  ghost predicate Good(d: Decoders, payload: Bytes, previews: seq<Preview>, seen: set<Bytes>) {
    Sound(d, payload, previews) && Remembered(payload, previews, seen)
  }

  ghost predicate Expandable(d: Decoders, payload: Bytes, from: Preview) {
    from.depth < MAX_DECODE_DEPTH && |from.path| == from.depth && Derives(d, payload, from.path, from.value)
  }

  /** The next transformation is skipped or becomes the next preview. */
  lemma NewNext(from: Preview, ts: Transforms, i: nat, seen: set<Bytes>, previews: seq<Preview>)
    requires i < |ts|
    ensures var codec, to := ts[i].0, ts[i].1;
      previews + NewFrom(from, ts[i..], seen) ==
      if |to| > MAX_DECODED_BYTES || to in seen then previews + NewFrom(from, ts[i + 1..], seen)
      else (previews + [Preview(to, from.path + [codec], from.depth + 1)]) + NewFrom(from, ts[i + 1..], seen + {to})
  {
    assert ts[i..][0] == ts[i] && ts[i..][1..] == ts[i + 1..];
  }

  /** The transformations of one popped value, recorded until four previews are reached. */
  method Record(
    d: Decoders, ghost payload: Bytes, ghost n: nat, from: Preview, ts: Transforms, before: seq<Preview>,
    known: set<Bytes>, limit: bool)
    returns (previews: seq<Preview>, seen: set<Bytes>, queued: seq<Preview>, limited: bool)
    requires Good(d, payload, before, known) && |before| < MAX_DECODED_PREVIEWS
    requires Expandable(d, payload, from) && Real(d, from.value, n, ts)
    ensures Good(d, payload, previews, seen) && known <= seen && Added(d, n, from, before, known, previews)
    ensures limit || |previews| == MAX_DECODED_PREVIEWS ==> limited
    ensures |previews| < MAX_DECODED_PREVIEWS ==> queued == previews[|before|..] && Covered(ts, |ts|, seen)
    ensures |queued| <= |previews| - |before| && forall p | p in queued :: p in previews
    ensures previews == FirstFour(before + NewFrom(from, ts, known))
    ensures |previews| < MAX_DECODED_PREVIEWS ==> seen == known + Values(NewFrom(from, ts, known))
    ensures limited <==> limit || |previews| == MAX_DECODED_PREVIEWS || !Fit(ts, |ts|)
  {
    previews, seen, queued, limited := before, known, [], limit;
    var i := 0;
    while i < |ts| && |previews| < MAX_DECODED_PREVIEWS
      invariant 0 <= i <= |ts|
      invariant Good(d, payload, previews, seen) && known <= seen && Added(d, n, from, before, known, previews)
      invariant limited <==> limit || |previews| == MAX_DECODED_PREVIEWS || !Fit(ts, i)
      invariant |previews| < MAX_DECODED_PREVIEWS ==> queued == previews[|before|..] && Covered(ts, i, seen)
      invariant |queued| <= |previews| - |before| && forall p | p in queued :: p in previews
      invariant previews + NewFrom(from, ts[i..], seen) == before + NewFrom(from, ts, known)
    {
      var codec, decoded := ts[i].0, ts[i].1;
      NewNext(from, ts, i, seen, previews);
      if |decoded| > MAX_DECODED_BYTES {
        limited := true;
      } else if decoded !in seen {
        AddPreview(d, payload, previews, seen, from, codec, decoded);
        var preview := Preview(decoded, from.path + [codec], from.depth + 1);
        AddedSnoc(d, n, from, before, known, previews, preview);
        seen := seen + {decoded};
        previews := previews + [preview];
        if |previews| == MAX_DECODED_PREVIEWS {
          limited := true;
        } else {
          queued := queued + [preview];
        }
      }
      i := i + 1;
    }
    RecordedAll(payload, from, ts, before, known, previews, seen, i);
  }

  lemma RecordedAll(
    payload: Bytes, from: Preview, ts: Transforms, before: seq<Preview>, known: set<Bytes>, previews: seq<Preview>,
    seen: set<Bytes>, i: nat)
    requires i <= |ts| && |previews| <= MAX_DECODED_PREVIEWS && (|previews| < MAX_DECODED_PREVIEWS ==> i == |ts|)
    requires previews + NewFrom(from, ts[i..], seen) == before + NewFrom(from, ts, known)
    requires Remembered(payload, before, known) && Remembered(payload, previews, seen)
    ensures previews == FirstFour(before + NewFrom(from, ts, known))
    ensures |previews| < MAX_DECODED_PREVIEWS ==> seen == known + Values(NewFrom(from, ts, known))
  {
    var added := NewFrom(from, ts, known);
    assert previews == (previews + NewFrom(from, ts[i..], seen))[..|previews|];
    if |previews| < MAX_DECODED_PREVIEWS {
      assert previews + [] == previews;
      assert Values(before + added) == Values(before) + Values(added) by {
        assert forall p :: p in before + added <==> p in before || p in added;
      }
    }
  }

  // ----- what is found

  /** Found by percent decoding or by one of the first eight tokens: never cut off. */
  ghost predicate Uncut(d: Decoders, payload: Bytes, to: Bytes) {
    Within(d, payload, MAX_BASE64_CANDIDATES, to)
  }

  /** Reachable by one or two legal transforms. */
  ghost predicate Decodes(d: Decoders, payload: Bytes, to: Bytes) {
    Legal(d, payload, to) || exists m :: Legal(d, payload, m) && Legal(d, m, to)
  }

  ghost predicate AllSeen(d: Decoders, value: Bytes, seen: set<Bytes>) {
    forall to | Legal(d, value, to) :: to in seen
  }

  ghost predicate UncutSeen(d: Decoders, payload: Bytes, seen: set<Bytes>) {
    forall to | Uncut(d, payload, to) :: to in seen
  }

  /** Depth one is exactly what one transform finds within the first eight tokens; with nothing cut
      off, that is what one legal transform finds. */
  ghost predicate Layered(d: Decoders, payload: Bytes, previews: seq<Preview>, limit: bool) {
    forall p | p in previews ::
      && (p.depth == 1 <==> Uncut(d, payload, p.value))
      && (!limit ==> (p.depth == 1 <==> Legal(d, payload, p.value)))
  }

  ghost predicate PercentSeen(d: Decoders, value: Bytes, seen: set<Bytes>) {
    d.percent(value).Some? && |d.percent(value).value| <= MAX_DECODED_BYTES ==> d.percent(value).value in seen
  }

  /** A value's percent decoding is known, and all its legal decodings when nothing was cut off. */
  ghost predicate Settled(d: Decoders, value: Bytes, seen: set<Bytes>, limit: bool) {
    PercentSeen(d, value, seen) && (!limit ==> AllSeen(d, value, seen))
  }

  /** Every first-level preview is expanded or waiting. */
  ghost predicate Waiting(d: Decoders, previews: seq<Preview>, queue: seq<Preview>, seen: set<Bytes>, limit: bool) {
    forall p | p in previews && p.depth == 1 :: p in queue || Settled(d, p.value, seen, limit)
  }

  ghost predicate Queued(d: Decoders, payload: Bytes, queue: seq<Preview>, previews: seq<Preview>) {
    forall q | q in queue ::
      q in previews && q.depth >= 1 && |q.path| == q.depth && Derives(d, payload, q.path, q.value)
  }

  lemma SeenAfter(d: Decoders, value: Bytes, ts: Transforms, seen: set<Bytes>)
    requires Lists(d, value, |d.tokens(value)|, ts) && Covered(ts, |ts|, seen)
    ensures AllSeen(d, value, seen)
  {
    forall to | Legal(d, value, to) ensures to in seen { assert Among(ts, to); }
  }

  lemma UncutAfter(d: Decoders, payload: Bytes, ts: Transforms, seen: set<Bytes>)
    requires Lists(d, payload, MAX_BASE64_CANDIDATES, ts) && Covered(ts, |ts|, seen)
    ensures UncutSeen(d, payload, seen)
  {
    forall to | Uncut(d, payload, to) ensures to in seen { assert Among(ts, to); }
  }

  lemma WithinLegal(d: Decoders, value: Bytes, n: nat, to: Bytes)
    requires Within(d, value, n, to)
    ensures Legal(d, value, to)
  {
  }

  lemma LayeredAfter(
    d: Decoders, payload: Bytes, n: nat, before: seq<Preview>, known: set<Bytes>, from: Preview,
    previews: seq<Preview>, limit: bool, limited: bool)
    requires Layered(d, payload, before, limit) && Added(d, n, from, before, known, previews) && from.depth == 1
    requires UncutSeen(d, payload, known) && (!limit ==> AllSeen(d, payload, known)) && (limit ==> limited)
    ensures Layered(d, payload, previews, limited)
  {
    forall p | p in previews
      ensures p.depth == 1 <==> Uncut(d, payload, p.value)
      ensures !limited ==> (p.depth == 1 <==> Legal(d, payload, p.value))
    {
      var i :| 0 <= i < |previews| && previews[i] == p;
      if i < |before| {
        assert before[i] == p && p in before;
      } else {
        assert AddedOne(d, n, from, known, previews[i]);
      }
    }
  }

  lemma WaitingAfter(
    d: Decoders, before: seq<Preview>, queue: seq<Preview>, known: set<Bytes>, from: Preview, previews: seq<Preview>,
    seen: set<Bytes>, limit: bool, limited: bool)
    requires queue != [] && queue[0] == from && Waiting(d, before, queue, known, limit) && known <= seen
    requires (limit ==> limited)
    requires before <= previews && Settled(d, from.value, seen, limited)
    ensures Waiting(d, previews, queue[1..] + previews[|before|..], seen, limited)
  {
    var rest := queue[1..] + previews[|before|..];
    assert queue == [from] + queue[1..];
    forall p | p in previews && p.depth == 1 ensures p in rest || Settled(d, p.value, seen, limited) {
      var i :| 0 <= i < |previews| && previews[i] == p;
      if i < |before| {
        assert before[i] == p && p in before;
        if p !in queue { assert Settled(d, p.value, known, limit); }
      } else {
        assert previews[|before|..][i - |before|] == p;
      }
    }
  }

  lemma QueuedAfter(
    d: Decoders, payload: Bytes, before: seq<Preview>, queue: seq<Preview>, previews: seq<Preview>, added: seq<Preview>)
    requires Queued(d, payload, queue, before) && Sound(d, payload, previews) && before <= previews
    requires forall p | p in added :: p in previews
    ensures Queued(d, payload, queue + added, previews)
  {
    forall q | q in queue + added
      ensures q in previews && q.depth >= 1 && |q.path| == q.depth && Derives(d, payload, q.path, q.value)
    {
      if q in queue {
        var i :| 0 <= i < |before| && before[i] == q;
        assert previews[i] == q;
      } else {
        var i :| 0 <= i < |previews| && previews[i] == q;
      }
    }
  }

  /** The first four of what there was and what the value adds. */
  ghost predicate Records(
    d: Decoders, from: Preview, candidates: nat, before: seq<Preview>, known: set<Bytes>, previews: seq<Preview>,
    seen: set<Bytes>)
  {
    var added := NewFrom(from, Listing(d, from.value, Budget(candidates)), known);
    && previews == FirstFour(before + added)
    && (|previews| < MAX_DECODED_PREVIEWS ==> seen == known + Values(added))
  }

  /** The value has a token behind the first `n`, or something of it is too large. */
  ghost predicate ValueRaises(d: Decoders, value: Bytes, n: nat) {
    var ts := Listing(d, value, n);
    TokenRaises(d, value, n) || !Fit(ts, |ts|)
  }

  /** One pop of the queue, for a value that may be expanded. */
  method Expand(
    d: Decoders, ghost payload: Bytes, from: Preview, before: seq<Preview>, known: set<Bytes>, candidates: nat,
    limit: bool)
    returns (previews: seq<Preview>, seen: set<Bytes>, queued: seq<Preview>, count: nat, limited: bool)
    requires Good(d, payload, before, known) && |before| < MAX_DECODED_PREVIEWS && Expandable(d, payload, from)
    ensures Good(d, payload, previews, seen) && known <= seen
    ensures Added(d, Budget(candidates), from, before, known, previews)
    ensures limit || |previews| == MAX_DECODED_PREVIEWS ==> limited
    ensures |queued| <= |previews| - |before| && forall p | p in queued :: p in previews
    ensures |previews| < MAX_DECODED_PREVIEWS ==>
      queued == previews[|before|..] && Settled(d, from.value, seen, limited)
    ensures |previews| < MAX_DECODED_PREVIEWS && candidates == 0 ==> UncutSeen(d, from.value, seen)
    ensures !limited ==> AllSeen(d, from.value, seen)
    ensures Records(d, from, candidates, before, known, previews, seen)
    ensures Budget(count) == Budget(candidates + |d.tokens(from.value)|)
    ensures limited <==>
      limit || |previews| == MAX_DECODED_PREVIEWS || ValueRaises(d, from.value, Budget(candidates))
  {
    var ts: Transforms;
    ts, count, limited := Transform(d, from.value, candidates, limit);
    ListingFacts(d, from.value, Budget(candidates));
    if !limited { BudgetEnough(d, from.value, Budget(candidates)); }
    previews, seen, queued, limited := Record(d, payload, Budget(candidates), from, ts, before, known, limited);
    if |previews| < MAX_DECODED_PREVIEWS {
      PercentAfter(d, from.value, Budget(candidates), ts, seen);
      if candidates == 0 { UncutAfter(d, from.value, ts, seen); }
      if !limited { SeenAfter(d, from.value, ts, seen); }
    }
  }

  lemma BudgetEnough(d: Decoders, value: Bytes, n: nat)
    requires !TokenRaises(d, value, n)
    ensures Lists(d, value, |d.tokens(value)|, Listing(d, value, n))
  {
    TokensBeyond(d, value, |d.tokens(value)|, n);
    ListingFacts(d, value, |d.tokens(value)|);
  }

  lemma PercentAfter(d: Decoders, value: Bytes, n: nat, ts: Transforms, seen: set<Bytes>)
    requires Lists(d, value, n, ts) && Covered(ts, |ts|, seen)
    ensures PercentSeen(d, value, seen)
  {
    if d.percent(value).Some? { assert Among(ts, d.percent(value).value); }
  }

  /** The loop's invariant once the payload itself has been expanded. */
  ghost predicate Searching(
    d: Decoders, payload: Bytes, queue: seq<Preview>, previews: seq<Preview>, seen: set<Bytes>, limit: bool)
  {
    && Good(d, payload, previews, seen) && Queued(d, payload, queue, previews)
    && (|previews| < MAX_DECODED_PREVIEWS ==> UncutSeen(d, payload, seen))
    && (|previews| == MAX_DECODED_PREVIEWS ==> limit)
    && Layered(d, payload, previews, limit)
    && (!limit ==> AllSeen(d, payload, seen))
    && (|previews| < MAX_DECODED_PREVIEWS ==> Waiting(d, previews, queue, seen, limit))
  }

  lemma FirstStep(
    d: Decoders, payload: Bytes, previews: seq<Preview>, seen: set<Bytes>, queued: seq<Preview>, limit: bool)
    requires Good(d, payload, previews, seen) && Added(d, Budget(0), Start(payload), [], {payload}, previews)
    requires |previews| == MAX_DECODED_PREVIEWS ==> limit
    requires forall p | p in queued :: p in previews
    requires |previews| < MAX_DECODED_PREVIEWS ==> queued == previews && UncutSeen(d, payload, seen)
    requires !limit ==> AllSeen(d, payload, seen)
    ensures Searching(d, payload, queued, previews, seen, limit)
  {
    forall p | p in previews ensures p.depth == 1 && Uncut(d, payload, p.value) && Legal(d, payload, p.value) {
      var i :| 0 <= i < |previews| && previews[i] == p;
      assert AddedOne(d, Budget(0), Start(payload), {payload}, previews[i]);
      WithinLegal(d, payload, Budget(0), p.value);
    }
    QueuedAfter(d, payload, [], [], previews, queued);
    assert [] + queued == queued;
  }

  lemma SkipStep(
    d: Decoders, payload: Bytes, queue: seq<Preview>, previews: seq<Preview>, seen: set<Bytes>, limit: bool)
    requires Searching(d, payload, queue, previews, seen, limit) && queue != [] && queue[0].depth >= MAX_DECODE_DEPTH
    ensures Searching(d, payload, queue[1..], previews, seen, limit)
  {
    assert queue == [queue[0]] + queue[1..];
    if |previews| < MAX_DECODED_PREVIEWS {
      forall p | p in previews && p.depth == 1 ensures p in queue[1..] || Settled(d, p.value, seen, limit) {
        assert p in queue || Settled(d, p.value, seen, limit);
      }
    }
  }

  lemma NextStep(
    d: Decoders, payload: Bytes, n: nat, queue: seq<Preview>, before: seq<Preview>, known: set<Bytes>, limit: bool,
    previews: seq<Preview>, seen: set<Bytes>, queued: seq<Preview>, limited: bool)
    requires Searching(d, payload, queue, before, known, limit) && queue != [] && |before| < MAX_DECODED_PREVIEWS
    requires Good(d, payload, previews, seen) && known <= seen && Added(d, n, queue[0], before, known, previews)
    requires limit || |previews| == MAX_DECODED_PREVIEWS ==> limited
    requires queue[0].depth == 1 && forall p | p in queued :: p in previews
    requires |previews| < MAX_DECODED_PREVIEWS ==>
      queued == previews[|before|..] && Settled(d, queue[0].value, seen, limited)
    ensures Searching(d, payload, queue[1..] + queued, previews, seen, limited)
  {
    LayeredAfter(d, payload, n, before, known, queue[0], previews, limit, limited);
    assert queue == [queue[0]] + queue[1..];
    assert Queued(d, payload, queue[1..], before);
    QueuedAfter(d, payload, before, queue[1..], previews, queued);
    if |previews| < MAX_DECODED_PREVIEWS {
      WaitingAfter(d, before, queue, known, queue[0], previews, seen, limit, limited);
    }
  }

  // ----- the flag

  function TokenTotal(d: Decoders, values: seq<Bytes>): nat {
    if values == [] then 0
    else TokenTotal(d, values[..|values| - 1]) + |d.tokens(values[|values| - 1])|
  }

  /** A token or a decoding of the value exceeds the size limit. */
  ghost predicate Oversized(d: Decoders, value: Bytes) {
    || (d.percent(value).Some? && |d.percent(value).value| > MAX_DECODED_BYTES)
    || exists i | 0 <= i < |d.tokens(value)| ::
         var token := d.tokens(value)[i];
         token.length > MAX_DECODED_BYTES || (Readable(token) && |token.decoded.value| > MAX_DECODED_BYTES)
  }

  /** The values have more than eight tokens between them, or something of them is too large. */
  ghost predicate Excess(d: Decoders, values: seq<Bytes>) {
    TokenTotal(d, values) > MAX_BASE64_CANDIDATES || exists v | v in values :: Oversized(d, v)
  }

  lemma {:induction false} TokensFit(d: Decoders, value: Bytes, n: nat)
    ensures var ts := TokensUpTo(d, value, n);
      Fit(ts, |ts|) <==> forall i | 0 <= i < |d.tokens(value)| && i < n && Readable(d.tokens(value)[i]) ::
        |d.tokens(value)[i].decoded.value| <= MAX_DECODED_BYTES
  {
    if n > 0 {
      TokensFit(d, value, n - 1);
      var before, ts := TokensUpTo(d, value, n - 1), TokensUpTo(d, value, n);
      assert forall j | 0 <= j < |before| :: ts[j] == before[j];
      if n <= |d.tokens(value)| && Readable(d.tokens(value)[n - 1]) {
        assert ts[|before|].1 == d.tokens(value)[n - 1].decoded.value;
      }
    }
  }

  lemma ListingFit(d: Decoders, value: Bytes, n: nat)
    ensures var ts, tokens := Listing(d, value, n), TokensUpTo(d, value, n);
      Fit(ts, |ts|) <==>
        Fit(tokens, |tokens|) && !(d.percent(value).Some? && |d.percent(value).value| > MAX_DECODED_BYTES)
  {
    var front: Transforms := if d.percent(value).Some? then [(UrlPercent, d.percent(value).value)] else [];
    var ts, tokens := Listing(d, value, n), TokensUpTo(d, value, n);
    assert ts == front + tokens;
    assert forall j | 0 <= j < |tokens| :: ts[|front| + j] == tokens[j];
    if Fit(ts, |ts|) {
      forall j | 0 <= j < |tokens| ensures |tokens[j].1| <= MAX_DECODED_BYTES { assert ts[|front| + j] == tokens[j]; }
      if d.percent(value).Some? { assert ts[0] == front[0]; }
    }
  }

  /** Within the budget a value raises the flag exactly when something of it is too large. */
  lemma RaisesOversized(d: Decoders, value: Bytes, n: nat)
    requires |d.tokens(value)| <= n
    ensures ValueRaises(d, value, n) <==> Oversized(d, value)
  {
    ListingFit(d, value, n);
    TokensFit(d, value, n);
  }

  lemma ExcessSnoc(d: Decoders, values: seq<Bytes>, value: Bytes, candidates: nat)
    requires Budget(candidates) == Budget(TokenTotal(d, values))
    ensures Excess(d, values + [value]) <==> Excess(d, values) || ValueRaises(d, value, Budget(candidates))
    ensures Budget(candidates + |d.tokens(value)|) == Budget(TokenTotal(d, values + [value]))
  {
    var longer := values + [value];
    assert longer[..|longer| - 1] == values && longer[|longer| - 1] == value;
    assert forall v :: v in longer <==> v in values || v == value;
    if |d.tokens(value)| <= Budget(candidates) { RaisesOversized(d, value, Budget(candidates)); }
  }

  // ----- the queue

  function Shallow(): Preview -> bool {
    (p: Preview) => p.depth < MAX_DECODE_DEPTH
  }

  function ValueOf(): Preview -> Bytes {
    (p: Preview) => p.value
  }

  /** The first-level previews are the ones that are decoded again. */
  function Expanded(payload: Bytes, previews: seq<Preview>): seq<Bytes> {
    [payload] + Map(Filter(previews, Shallow()), ValueOf())
  }

  /** The values decoded so far, and what the waiting ones still have to give. */
  ghost predicate Waits(
    d: Decoders, all: seq<Preview>, expanded: seq<Bytes>, waiting: seq<Preview>, previews: seq<Preview>,
    seen: set<Bytes>, candidates: nat, limit: bool, done: seq<Bytes>)
  {
    && Budget(candidates) == Budget(TokenTotal(d, done))
    && (limit <==> Excess(d, done))
    && done + Map(waiting, ValueOf()) == expanded
    && previews + NewFromAll(d, waiting, candidates, seen) == all
  }

  ghost predicate Exact(
    d: Decoders, payload: Bytes, queue: seq<Preview>, previews: seq<Preview>, seen: set<Bytes>, candidates: nat,
    limit: bool, done: seq<Bytes>)
  {
    if |previews| < MAX_DECODED_PREVIEWS
    then Waits(d, AllPreviews(d, payload), Expanded(payload, previews), Filter(queue, Shallow()), previews, seen,
               candidates, limit, done)
    else previews == FirstFour(AllPreviews(d, payload))
  }

  lemma {:induction false} BudgetOnly(d: Decoders, queue: seq<Preview>, a: nat, b: nat, known: set<Bytes>)
    requires Budget(a) == Budget(b)
    ensures NewFromAll(d, queue, a, known) == NewFromAll(d, queue, b, known)
  {
    if queue != [] {
      var n := |d.tokens(queue[0].value)|;
      var added := NewFrom(queue[0], Listing(d, queue[0].value, Budget(a)), known);
      BudgetOnly(d, queue[1..], a + n, b + n, known + Values(added));
    }
  }

  lemma {:induction false} NewDepth(from: Preview, ts: Transforms, known: set<Bytes>)
    ensures forall p | p in NewFrom(from, ts, known) :: p.depth == from.depth + 1
  {
    if ts != [] {
      NewDepth(from, ts[1..], known);
      NewDepth(from, ts[1..], known + {ts[0].1});
    }
  }

  /** `_bounded_decodings`: at most four previews, each a new value with the path that leads to it: the
      first four of all values that two levels of decoding give, in order. The flag is raised exactly
      when there are four, or when the values decoded had more than eight tokens or anything too large.
      When it is false, the previews are exactly the values other than the payload that one or two
      legal transforms reach, each at its least depth. */
  method BoundedDecodings(d: Decoders, payload: Bytes) returns (previews: seq<Preview>, limit: bool)
    ensures Sound(d, payload, previews)
    ensures Layered(d, payload, previews, limit)
    ensures |previews| < MAX_DECODED_PREVIEWS ==> UncutKept(d, payload, previews)
    ensures !limit ==> forall to :: to in Values(previews) <==> to != payload && Decodes(d, payload, to)
    ensures previews == FirstFour(AllPreviews(d, payload))
    ensures limit <==> |previews| == MAX_DECODED_PREVIEWS || Excess(d, Expanded(payload, previews))
  {
    var seen := {payload};
    assert Derives(d, payload, [], payload);
    assert Values([]) + {payload} == {payload};
    var queued: seq<Preview>, candidates: nat;
    var queue := [Start(payload)];
    previews, limit, candidates := [], false, 0;
    ghost var started, done: seq<Bytes> := false, [];
    while queue != [] && |previews| < MAX_DECODED_PREVIEWS
      invariant Good(d, payload, previews, seen)
      invariant !started ==>
        queue == [Start(payload)] && previews == [] && seen == {payload} && candidates == 0 && !limit && done == []
      invariant started ==> Searching(d, payload, queue, previews, seen, limit)
      invariant started ==> Exact(d, payload, queue, previews, seen, candidates, limit, done)
      decreases 2 * (MAX_DECODED_PREVIEWS - |previews|) + |queue|
    {
      var from := queue[0];
      assert from in queue;
      if from.depth >= MAX_DECODE_DEPTH {
        SkipStep(d, payload, queue, previews, seen, limit);
        SkipExact(d, payload, queue, previews, seen, candidates, limit, done);
        queue := queue[1..];
      } else {
        ghost var before, known, was, used := previews, seen, limit, candidates;
        previews, seen, queued, candidates, limit := Expand(d, payload, from, previews, seen, candidates, limit);
        if !started {
          assert previews[0..] == previews;
          FirstStep(d, payload, previews, seen, queued, limit);
          FirstExact(d, payload, previews, seen, queued, candidates, limit);
          assert queue[1..] + queued == queued;
        } else {
          NextStep(d, payload, Budget(used), queue, before, known, was, previews, seen, queued, limit);
          NextExact(d, payload, queue, before, known, used, was, done, previews, seen, queued, candidates, limit);
        }
        queue := queue[1..] + queued;
        started, done := true, done + [from.value];
      }
    }
    if queue != [] {
      LayeredStays(d, payload, previews, limit);
      limit := true;
    }
    if |previews| < MAX_DECODED_PREVIEWS {
      KeptAfter(d, payload, previews, seen, limit);
      DoneExact(d, payload, previews, seen, candidates, limit, done);
    }
    if !limit { Complete(d, payload, previews, seen); }
  }

  lemma SkipExact(
    d: Decoders, payload: Bytes, queue: seq<Preview>, previews: seq<Preview>, seen: set<Bytes>, candidates: nat,
    limit: bool, done: seq<Bytes>)
    requires Exact(d, payload, queue, previews, seen, candidates, limit, done)
    requires queue != [] && queue[0].depth >= MAX_DECODE_DEPTH
    ensures Exact(d, payload, queue[1..], previews, seen, candidates, limit, done)
  {
  }

  lemma DoneExact(
    d: Decoders, payload: Bytes, previews: seq<Preview>, seen: set<Bytes>, candidates: nat, limit: bool,
    done: seq<Bytes>)
    requires Exact(d, payload, [], previews, seen, candidates, limit, done) && |previews| < MAX_DECODED_PREVIEWS
    ensures limit <==> Excess(d, Expanded(payload, previews))
    ensures previews == FirstFour(AllPreviews(d, payload))
  {
    assert done + [] == done && previews + [] == previews;
  }

  lemma FourDone(s: seq<Preview>, more: seq<Preview>)
    ensures |FirstFour(s)| == MAX_DECODED_PREVIEWS ==> FirstFour(s + more) == FirstFour(s)
    ensures |FirstFour(s)| < MAX_DECODED_PREVIEWS ==> FirstFour(s) == s
  {
  }

  lemma FirstExact(
    d: Decoders, payload: Bytes, previews: seq<Preview>, seen: set<Bytes>, queued: seq<Preview>, candidates: nat,
    limit: bool)
    requires Records(d, Start(payload), 0, [], {payload}, previews, seen)
    requires |previews| < MAX_DECODED_PREVIEWS ==> queued == previews
    requires Budget(candidates) == Budget(|d.tokens(payload)|)
    requires limit <==> |previews| == MAX_DECODED_PREVIEWS || ValueRaises(d, payload, Budget(0))
    ensures Exact(d, payload, queued, previews, seen, candidates, limit, [] + [payload])
  {
    var first := NewFrom(Start(payload), Listing(d, payload, MAX_BASE64_CANDIDATES), {payload});
    assert [] + first == first;
    FourDone(first, NewFromAll(d, first, |d.tokens(payload)|, {payload} + Values(first)));
    if |previews| < MAX_DECODED_PREVIEWS {
      NewDepth(Start(payload), Listing(d, payload, MAX_BASE64_CANDIDATES), {payload});
      FilterAll(first, Shallow());
      BudgetOnly(d, first, candidates, |d.tokens(payload)|, seen);
      ExcessSnoc(d, [], payload, 0);
      assert previews == first && seen == {payload} + Values(first);
    }
  }

  lemma AllNext(d: Decoders, from: Preview, rest: seq<Preview>, used: nat, known: set<Bytes>, candidates: nat)
    requires Budget(candidates) == Budget(used + |d.tokens(from.value)|)
    ensures var added := NewFrom(from, Listing(d, from.value, Budget(used)), known);
      NewFromAll(d, [from] + rest, used, known) == added + NewFromAll(d, rest, candidates, known + Values(added))
  {
    var added := NewFrom(from, Listing(d, from.value, Budget(used)), known);
    assert ([from] + rest)[0] == from && ([from] + rest)[1..] == rest;
    BudgetOnly(d, rest, candidates, used + |d.tokens(from.value)|, known + Values(added));
  }

  lemma MapNext(done: seq<Bytes>, from: Preview, rest: seq<Preview>)
    ensures done + Map([from] + rest, ValueOf()) == (done + [from.value]) + Map(rest, ValueOf())
  {
    assert ([from] + rest)[1..] == rest;
  }

  /** The first waiting value is decoded. */
  lemma WaitsNext(
    d: Decoders, all: seq<Preview>, expanded: seq<Bytes>, from: Preview, rest: seq<Preview>, before: seq<Preview>,
    known: set<Bytes>, used: nat, was: bool, done: seq<Bytes>, candidates: nat, limit: bool)
    requires Waits(d, all, expanded, [from] + rest, before, known, used, was, done)
    requires Budget(candidates) == Budget(used + |d.tokens(from.value)|)
    requires limit <==> was || ValueRaises(d, from.value, Budget(used))
    ensures var added := NewFrom(from, Listing(d, from.value, Budget(used)), known);
      Waits(d, all, expanded, rest, before + added, known + Values(added), candidates, limit, done + [from.value])
  {
    var added := NewFrom(from, Listing(d, from.value, Budget(used)), known);
    var later := NewFromAll(d, rest, candidates, known + Values(added));
    AllNext(d, from, rest, used, known, candidates);
    MapNext(done, from, rest);
    ExcessSnoc(d, done, from.value, used);
    assert (before + added) + later == before + (added + later);
  }

  /** The first-level previews in the queue and among the previews, the first of the queue taken out. */
  lemma NextShallow(queue: seq<Preview>, before: seq<Preview>, added: seq<Preview>)
    requires queue != [] && queue[0].depth == 1 && forall p | p in added :: p.depth == 2
    ensures Filter(queue, Shallow()) == [queue[0]] + Filter(queue[1..], Shallow())
    ensures Filter(queue[1..] + added, Shallow()) == Filter(queue[1..], Shallow())
    ensures Filter(before + added, Shallow()) == Filter(before, Shallow())
  {
    FilterNone(added, Shallow());
    FilterConcat(queue[1..], added, Shallow());
    FilterConcat(before, added, Shallow());
    assert Filter(queue[1..], Shallow()) + [] == Filter(queue[1..], Shallow());
    assert Filter(before, Shallow()) + [] == Filter(before, Shallow());
  }

  lemma NextExact(
    d: Decoders, payload: Bytes, queue: seq<Preview>, before: seq<Preview>, known: set<Bytes>, used: nat, was: bool,
    done: seq<Bytes>, previews: seq<Preview>, seen: set<Bytes>, queued: seq<Preview>, candidates: nat, limit: bool)
    requires queue != [] && queue[0].depth == 1 && |before| < MAX_DECODED_PREVIEWS
    requires Exact(d, payload, queue, before, known, used, was, done)
    requires Records(d, queue[0], used, before, known, previews, seen)
    requires Budget(candidates) == Budget(used + |d.tokens(queue[0].value)|)
    requires |previews| < MAX_DECODED_PREVIEWS ==> before <= previews && queued == previews[|before|..]
    requires |previews| < MAX_DECODED_PREVIEWS ==> (limit <==> was || ValueRaises(d, queue[0].value, Budget(used)))
    ensures Exact(d, payload, queue[1..] + queued, previews, seen, candidates, limit, done + [queue[0].value])
  {
    var from := queue[0];
    var added := NewFrom(from, Listing(d, from.value, Budget(used)), known);
    var rest := NextGives(d, AllPreviews(d, payload), queue, before, known, used, candidates);
    FourDone(before + added, NewFromAll(d, rest, candidates, known + Values(added)));
    if |previews| < MAX_DECODED_PREVIEWS {
      NextWaits(d, payload, queue, before, known, used, was, done, added, candidates, limit);
    }
  }

  /** All previews: those there are, those the first of the queue adds, those the rest gives. */
  lemma NextGives(
    d: Decoders, all: seq<Preview>, queue: seq<Preview>, before: seq<Preview>, known: set<Bytes>, used: nat,
    candidates: nat)
    returns (rest: seq<Preview>)
    requires queue != [] && queue[0].depth == 1
    requires before + NewFromAll(d, Filter(queue, Shallow()), used, known) == all
    requires Budget(candidates) == Budget(used + |d.tokens(queue[0].value)|)
    ensures var added := NewFrom(queue[0], Listing(d, queue[0].value, Budget(used)), known);
      (before + added) + NewFromAll(d, rest, candidates, known + Values(added)) == all
  {
    rest := Filter(queue[1..], Shallow());
    NextShallow(queue, before, []);
    AllNext(d, queue[0], rest, used, known, candidates);
  }

  lemma NextWaits(
    d: Decoders, payload: Bytes, queue: seq<Preview>, before: seq<Preview>, known: set<Bytes>, used: nat, was: bool,
    done: seq<Bytes>, added: seq<Preview>, candidates: nat, limit: bool)
    requires queue != [] && queue[0].depth == 1
    requires |before + added| < MAX_DECODED_PREVIEWS && Exact(d, payload, queue, before, known, used, was, done)
    requires added == NewFrom(queue[0], Listing(d, queue[0].value, Budget(used)), known)
    requires Budget(candidates) == Budget(used + |d.tokens(queue[0].value)|)
    requires limit <==> was || ValueRaises(d, queue[0].value, Budget(used))
    ensures Exact(d, payload, queue[1..] + added, before + added, known + Values(added), candidates, limit,
              done + [queue[0].value])
  {
    NewDepth(queue[0], Listing(d, queue[0].value, Budget(used)), known);
    NextShallow(queue, before, added);
    WaitsNext(d, AllPreviews(d, payload), Expanded(payload, before), queue[0], Filter(queue[1..], Shallow()), before,
      known, used, was, done, candidates, limit);
  }

  /** Fewer than four previews: nothing but a late Base64 token or an oversized value was dropped. */
  ghost predicate UncutKept(d: Decoders, payload: Bytes, previews: seq<Preview>) {
    && (forall to | Uncut(d, payload, to) && to != payload :: to in Values(previews))
    && forall p, to | p in previews && p.depth == 1 && d.percent(p.value) == Some(to) && to != payload &&
      |to| <= MAX_DECODED_BYTES ::
         to in Values(previews)
  }

  lemma KeptAfter(d: Decoders, payload: Bytes, previews: seq<Preview>, seen: set<Bytes>, limit: bool)
    requires Searching(d, payload, [], previews, seen, limit) && |previews| < MAX_DECODED_PREVIEWS
    ensures UncutKept(d, payload, previews)
  {
  }

  lemma LayeredStays(d: Decoders, payload: Bytes, previews: seq<Preview>, limit: bool)
    requires Layered(d, payload, previews, limit)
    ensures Layered(d, payload, previews, true)
  {
  }

  lemma LastStep(d: Decoders, payload: Bytes, path: seq<Codec>, value: Bytes) returns (from: Bytes)
    requires path != [] && Derives(d, payload, path, value)
    ensures Derives(d, payload, path[..|path| - 1], from) && Legal(d, from, value)
  {
    var earlier, last := path[..|path| - 1], path[|path| - 1];
    from :| Derives(d, payload, earlier, from) && StepBy(d, last, from, value);
  }

  lemma DerivedDecodes(d: Decoders, payload: Bytes, p: Preview)
    requires 1 <= p.depth <= 2 && |p.path| == p.depth && Derives(d, payload, p.path, p.value)
    ensures Decodes(d, payload, p.value) && (p.depth == 1 ==> Legal(d, payload, p.value))
  {
    var from := LastStep(d, payload, p.path, p.value);
    if p.depth == 2 {
      var root := LastStep(d, payload, p.path[..1], from);
    }
  }

  lemma SeenPreview(
    d: Decoders, payload: Bytes, previews: seq<Preview>, seen: set<Bytes>, to: Bytes) returns (p: Preview)
    requires Good(d, payload, previews, seen) && to in seen && to != payload
    ensures p in previews && p.value == to && 1 <= p.depth <= 2
  {
    p :| p in previews && p.value == to;
    var i :| 0 <= i < |previews| && previews[i] == p;
  }

  lemma Complete(d: Decoders, payload: Bytes, previews: seq<Preview>, seen: set<Bytes>)
    requires Searching(d, payload, [], previews, seen, false)
    ensures forall to :: to in Values(previews) <==> to != payload && Decodes(d, payload, to)
  {
    forall to ensures to in Values(previews) <==> to != payload && Decodes(d, payload, to) {
      if to in Values(previews) {
        var p :| p in previews && p.value == to;
        var i :| 0 <= i < |previews| && previews[i] == p;
        DerivedDecodes(d, payload, p);
      }
      if to != payload && Decodes(d, payload, to) {
        if !Legal(d, payload, to) {
          var m :| Legal(d, payload, m) && Legal(d, m, to);
          var p := SeenPreview(d, payload, previews, seen, m);
          assert p.depth == 1;
          assert AllSeen(d, m, seen);
        }
        var q := SeenPreview(d, payload, previews, seen, to);
      }
    }
  }

  // ----- least depth

  /** The fewest legal transforms that reach a previewed value. */
  ghost function LeastDepth(d: Decoders, payload: Bytes, to: Bytes): nat {
    if Legal(d, payload, to) then 1 else 2
  }

  /** A preview stands at its least depth exactly when its value is not one that the payload yields
      only by a token past the eighth; so always when the flag is false or the payload has at most
      eight tokens. */
  lemma LeastDepths(d: Decoders, payload: Bytes, previews: seq<Preview>, limit: bool)
    requires Sound(d, payload, previews) && Layered(d, payload, previews, limit)
    ensures forall p | p in previews ::
      p.depth == LeastDepth(d, payload, p.value) <==> (Legal(d, payload, p.value) ==> Uncut(d, payload, p.value))
    ensures !limit || |d.tokens(payload)| <= MAX_BASE64_CANDIDATES ==>
      forall p | p in previews :: p.depth == LeastDepth(d, payload, p.value)
  {
    forall p | p in previews
      ensures 1 <= p.depth <= 2
      ensures |d.tokens(payload)| <= MAX_BASE64_CANDIDATES ==>
        (Legal(d, payload, p.value) <==> Uncut(d, payload, p.value))
    {
      var i :| 0 <= i < |previews| && previews[i] == p;
      if |d.tokens(payload)| <= MAX_BASE64_CANDIDATES {
        FewerGives(d, payload, MAX_BASE64_CANDIDATES, |d.tokens(payload)|);
        FewerGives(d, payload, |d.tokens(payload)|, MAX_BASE64_CANDIDATES);
      }
    }
  }

  /** The payload's first token yields `m`, its ninth `y`, those between nothing; percent decoding
      turns `m` into `y`. */
  ghost predicate LateToken(d: Decoders, payload: Bytes, m: Bytes, y: Bytes) {
    && d.percent(payload) == None && |d.tokens(payload)| == 9
    && Readable(d.tokens(payload)[0]) && d.tokens(payload)[0].decoded.value == m
    && Readable(d.tokens(payload)[8]) && d.tokens(payload)[8].decoded.value == y
    && (forall i | 1 <= i < 8 :: d.tokens(payload)[i].decoded.None?)
    && d.percent(m) == Some(y) && d.tokens(m) == [] && d.percent(y) == None && d.tokens(y) == []
  }

  lemma LateSteps(d: Decoders, payload: Bytes, m: Bytes, y: Bytes, from: Bytes, to: Bytes)
    requires LateToken(d, payload, m, y) && from in {payload, m, y} && Legal(d, from, to)
    ensures to == m || to == y
  {
  }

  lemma LateCut(d: Decoders, payload: Bytes, m: Bytes, y: Bytes)
    requires LateToken(d, payload, m, y) && m != y && |m| <= MAX_DECODED_BYTES && |y| <= MAX_DECODED_BYTES
    ensures Uncut(d, payload, m) && Legal(d, payload, y) && !Uncut(d, payload, y)
  {
    assert d.tokens(payload)[0].decoded.value == m;
    assert d.tokens(payload)[8].decoded.value == y;
  }

  lemma LateReached(d: Decoders, payload: Bytes, m: Bytes, y: Bytes, p: Preview)
    requires LateToken(d, payload, m, y) && 1 <= p.depth <= 2 && |p.path| == p.depth
    requires Derives(d, payload, p.path, p.value)
    ensures p.value == m || p.value == y
  {
    var from := LastStep(d, payload, p.path, p.value);
    if p.depth == 2 {
      var root := LastStep(d, payload, p.path[..1], from);
      LateSteps(d, payload, m, y, payload, from);
    }
    LateSteps(d, payload, m, y, from, p.value);
  }

  /** A search whose flag is set: `y` is one transform away from the payload but is shown at depth two. */
  method LateTokenSearch(d: Decoders, payload: Bytes, m: Bytes, y: Bytes) returns (previews: seq<Preview>, limit: bool)
    requires LateToken(d, payload, m, y) && payload != m && payload != y && m != y
    requires |m| <= MAX_DECODED_BYTES && |y| <= MAX_DECODED_BYTES
    ensures limit && Legal(d, payload, y)
    ensures exists p :: p in previews && p.value == y && p.depth == 2
  {
    previews, limit := BoundedDecodings(d, payload);
    LateCut(d, payload, m, y);
    forall i | 0 <= i < |previews| ensures previews[i].value == m || previews[i].value == y {
      LateReached(d, payload, m, y, previews[i]);
    }
    if |previews| > 2 {
      assert previews[0].value != previews[1].value && previews[1].value != previews[2].value &&
        previews[0].value != previews[2].value;
    }
    assert m in Values(previews);
    var p :| p in previews && p.value == m;
    assert d.percent(p.value) == Some(y);
    assert y in Values(previews);
    var q :| q in previews && q.value == y;
    var i :| 0 <= i < |previews| && previews[i] == q;
  }
}
