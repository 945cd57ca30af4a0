/** What a document's chunks are, stated on their texts (chunking.py): where each ends, where the next one
    starts, which blocks it names and what its ID fixes. */
module ChunkMeaning {
  import opened Common
  import opened Text
  import opened Digest
  import opened Records
  import opened Layout
  import opened TextSlicing
  import opened Grouping
  import opened Chunking

  // ----- boundaries

  /** Two neighbours may stand in one chunk: one section, and with separated modalities no table or image
      beside a piece of another block. */
  predicate MayShare(config: Config, p: Piece, q: Piece) {
    && p.block.sectionPath == q.block.sectionPath
    && (!config.separateModalities || p.block.blockId == q.block.blockId || (Plain(p) && Plain(q)))
  }

  predicate Plain(p: Piece) {
    p.block.modality != TableBlock && p.block.modality != ImageBlock
  }

  lemma RelatedMeaning(config: Config, p: Piece, q: Piece)
    ensures Related(config)(p, q) <==> MayShare(config, p, q)
  {
  }

  /** The text of the pieces from `a` up to `b`, with a blank line between neighbours. */
  function Span(pieces: seq<Piece>, a: nat, b: nat): string
    requires a <= b <= |pieces|
  {
    Content(pieces[a..b])
  }

  /** One piece is its own text; a longer span adds a blank line and the next text. */
  lemma SpanMeaning(pieces: seq<Piece>, a: nat, b: nat)
    requires a <= b < |pieces|
    ensures Span(pieces, a, b + 1) == if a == b then pieces[b].text else Span(pieces, a, b) + ("\n\n" + pieces[b].text)
  {
    var texts := Map(pieces[a..b], PieceText());
    assert pieces[a..b + 1] == pieces[a..b] + [pieces[b]];
    MapConcat(pieces[a..b], [pieces[b]], PieceText());
    assert [pieces[b]][1..] == [] && Map([pieces[b]], PieceText()) == [pieces[b].text];
    if a == b { assert pieces[a..b] == [] && texts == []; } else { JoinSnoc(texts, pieces[b].text, "\n\n"); }
  }

  lemma SpanLength(pieces: seq<Piece>, a: nat, b: nat)
    requires a <= b <= |pieces|
    ensures |Span(pieces, a, b)| == JoinedLength(pieces[a..b], TextLength())
    ensures a < b < |pieces| ==>
      |Span(pieces, a, b + 1)| == JoinedLength(pieces[a..b], TextLength()) + DELIMITER + TextLength()(pieces[b])
  {
    ContentLength(pieces[a..b]);
    if a < b < |pieces| {
      ContentLength(pieces[a..b + 1]);
      assert pieces[a..b + 1] == pieces[a..b] + [pieces[b]];
      JoinedSnoc(pieces[a..b], pieces[b], TextLength());
    }
  }

  /** Piece `b` may follow the chunk that starts at `a`. */
  predicate Continues(pieces: seq<Piece>, config: Config, a: nat, b: nat) {
    && a < b < |pieces| && MayShare(config, pieces[b - 1], pieces[b])
    && |Span(pieces, a, b + 1)| <= config.maxChars
  }

  lemma ContinuesMeaning(pieces: seq<Piece>, config: Config, a: nat, b: nat)
    requires a < b < |pieces|
    ensures Continues(pieces, config, a, b) <==>
      && Related(config)(pieces[b - 1], pieces[b])
      && JoinedLength(pieces[a..b], TextLength()) + DELIMITER + TextLength()(pieces[b]) <= config.maxChars
  {
    RelatedMeaning(config, pieces[b - 1], pieces[b]);
    SpanLength(pieces, a, b);
  }

  /** The suffix from `c` on is repeated in the next chunk: it fits the overlap, no longer one does, the
      pieces on both sides of `b` may share a chunk, and the next piece still fits behind it. */
  ghost predicate Repeats(pieces: seq<Piece>, config: Config, a: nat, b: nat, c: nat)
    requires a < b < |pieces|
  {
    && a <= c < b && config.overlapChars > 0 && |Span(pieces, c, b)| <= config.overlapChars
    && (forall d | a <= d < c :: |Span(pieces, d, b)| > config.overlapChars)
    && Continues(pieces, config, c, b)
  }

  lemma RepeatsIsCarried(pieces: seq<Piece>, config: Config, a: nat, b: nat, c: nat)
    requires a < b < |pieces|
    ensures Repeats(pieces, config, a, b, c) <==>
      Carried(pieces, TextLength(), Related(config), config.maxChars, config.overlapChars, a, b, c)
  {
    forall d | a <= d < b ensures |Span(pieces, d, b)| == JoinedLength(pieces[d..b], TextLength()) {
      SpanLength(pieces, d, b);
    }
    if a <= c < b { ContinuesMeaning(pieces, config, c, b); }
  }

  /** The next chunk starts at the repeated suffix if there is one, else behind this chunk. */
  ghost predicate StartsNext(pieces: seq<Piece>, config: Config, a: nat, b: nat, next: nat)
    requires a < b < |pieces|
  {
    && (forall c: nat :: Repeats(pieces, config, a, b, c) ==> next == c)
    && ((forall c: nat :: !Repeats(pieces, config, a, b, c)) ==> next == b)
  }

  lemma NextChunk(pieces: seq<Piece>, config: Config, starts: seq<nat>, ends: seq<nat>, k: nat)
    requires Grouped(pieces, config, starts, ends) && k + 1 < |ends|
    ensures starts[k] < ends[k] < |pieces|
    ensures StartsNext(pieces, config, starts[k], ends[k], starts[k + 1])
  {
    GroupBoundaries(pieces, TextLength(), Related(config), config.maxChars, config.overlapChars, starts, ends, k);
    var a, b := starts[k], ends[k];
    forall c: nat
      ensures Repeats(pieces, config, a, b, c) <==>
        Carried(pieces, TextLength(), Related(config), config.maxChars, config.overlapChars, a, b, c)
    {
      RepeatsIsCarried(pieces, config, a, b, c);
    }
  }

  lemma ChunkEnd(pieces: seq<Piece>, config: Config, starts: seq<nat>, ends: seq<nat>, k: nat)
    requires Grouped(pieces, config, starts, ends) && k < |ends|
    ensures starts[k] < ends[k] <= |pieces|
    ensures forall b | starts[k] < b < ends[k] :: Continues(pieces, config, starts[k], b)
    ensures k + 1 < |ends| ==> !Continues(pieces, config, starts[k], ends[k])
  {
    GroupBoundaries(pieces, TextLength(), Related(config), config.maxChars, config.overlapChars, starts, ends, k);
    forall b | starts[k] < b < ends[k] ensures Continues(pieces, config, starts[k], b) {
      ContinuesMeaning(pieces, config, starts[k], b);
    }
    if k + 1 < |ends| { ContinuesMeaning(pieces, config, starts[k], ends[k]); }
  }

  /** A chunk takes every next piece that may share it and fits, ends where the next one does not, and the
      next chunk starts at the repeated suffix if there is one, else behind this chunk. */
  lemma ChunkBoundaries(pieces: seq<Piece>, config: Config, starts: seq<nat>, ends: seq<nat>, k: nat)
    requires Grouped(pieces, config, starts, ends) && k < |ends|
    ensures starts[k] < ends[k] <= |pieces|
    ensures forall b | starts[k] < b < ends[k] :: Continues(pieces, config, starts[k], b)
    ensures k + 1 < |ends| ==>
      && ends[k] < |pieces| && !Continues(pieces, config, starts[k], ends[k])
      && StartsNext(pieces, config, starts[k], ends[k], starts[k + 1])
  {
    ChunkEnd(pieces, config, starts, ends, k);
    if k + 1 < |ends| { NextChunk(pieces, config, starts, ends, k); }
  }

  // ----- the blocks a chunk names

  /** Piece `i` is the group's first from this block. */
  predicate FirstPiece(group: seq<Piece>, id: string, i: nat) {
    i < |group| && group[i].block.blockId == id && forall j | 0 <= j < i :: group[j].block.blockId != id
  }

  lemma FirstPieceIndex(group: seq<Piece>, id: string, i: nat)
    requires FirstPiece(group, id, i)
    ensures var ids := Map(group, PieceBlockId()); id in ids && IndexOf(ids, id) == i
  {
    var ids := Map(group, PieceBlockId());
    assert ids[i] == id;
    var k := IndexOf(ids, id);
    assert forall j | 0 <= j < k :: ids[j] in ids[..k];
    assert !(k < i) && !(i < k);
  }

  /** A chunk names exactly the blocks of its pieces, each once, in the order they first occur. */
  lemma ChunkBlockIds(source: Source, rev: Revisions, group: seq<Piece>, ordinal: nat)
    requires group != []
    ensures var ids := ChunkOf(source, rev, group, ordinal).blockIds;
      && Distinct(ids) && (forall id :: id in ids <==> exists i | 0 <= i < |group| :: group[i].block.blockId == id)
      && forall m, n, i, j | 0 <= m < n < |ids| && FirstPiece(group, ids[m], i) && FirstPiece(group, ids[n], j) :: i < j
  {
    var all := Map(group, PieceBlockId());
    var ids := FirstOccurrences(all);
    FirstOccurrencesMeaning(all);
    forall id ensures id in ids <==> exists i | 0 <= i < |group| :: group[i].block.blockId == id {
      assert id in ids <==> id in Elements(all);
      if i :| 0 <= i < |group| && group[i].block.blockId == id { assert all[i] == id; }
      if id in all {
        var i :| 0 <= i < |all| && all[i] == id;
        assert group[i].block.blockId == id;
      }
    }
    forall m, n, i, j | 0 <= m < n < |ids| && FirstPiece(group, ids[m], i) && FirstPiece(group, ids[n], j)
      ensures i < j
    {
      FirstPieceIndex(group, ids[m], i);
      FirstPieceIndex(group, ids[n], j);
    }
  }

  // ----- what a chunk ID fixes

  /** Two groups with one chunk ID have the same source revision, the same pipeline revisions, the same
      pieces and the same text. */
  lemma ChunkIdFixes(
    s: Source, u: Source, rev: Revisions, next: Revisions, g: seq<Piece>, h: seq<Piece>, m: nat, n: nat)
    requires g != [] && h != []
    requires (forall i | 0 <= i < |g| :: |g[i].block.blockId| == 36)
    requires (forall i | 0 <= i < |h| :: |h[i].block.blockId| == 36)
    requires Encodable(IdentityValues(s, rev, g)) && Encodable(IdentityValues(u, next, h))
    requires ChunkOf(s, rev, g, m).chunkId == ChunkOf(u, next, h, n).chunkId
    ensures s.kbId == u.kbId && s.sourceId == u.sourceId && s.sha256 == u.sha256 && rev == next
    ensures |g| == |h| && (forall i | 0 <= i < |g| :: SameKey(g[i], h[i])) && Content(g) == Content(h)
  {
    var x, y := IdentityValues(s, rev, g), IdentityValues(u, next, h);
    EncodeInjective(x, y);
    assert x[0] == y[0] && x[1] == y[1] && x[2] == y[2] && x[3] == y[3];
    assert x[4] == y[4] && x[5] == y[5] && x[6] == y[6] && x[7] == y[7];
    IdentityInjective(g, h, 36);
  }
}
