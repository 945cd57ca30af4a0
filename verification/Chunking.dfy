/** Bounded retrieval chunks of one document (`chunk_blocks`, chunking.py). */
module Chunking {
  import opened Common
  import opened Text
  import opened Digest
  import opened Records
  import opened Layout
  import opened TextSlicing
  import opened Grouping

  datatype Config = Config(maxChars: nat, overlapChars: nat, separateModalities: bool)

  /** `ChunkingConfig.__post_init__`, the fields that matter here. */
  predicate ValidConfig(c: Config) {
    128 <= c.maxChars <= 32_000 && c.overlapChars < c.maxChars
  }

  datatype Piece = Piece(block: Block, partIndex: nat, start: nat, end: nat, text: string)

  function PieceText(): Piece -> string {
    (p: Piece) => p.text
  }

  function TextLength(): Piece -> nat {
    (p: Piece) => |p.text|
  }

  predicate Isolated(m: Modality) {
    m == TableBlock || m == ImageBlock
  }

  /** `_compatible`. */
  predicate Compatible(c: Config, previous: Piece, current: Piece) {
    c.separateModalities && (Isolated(previous.block.modality) || Isolated(current.block.modality)) ==>
      previous.block.blockId == current.block.blockId
  }

  /** Same section and compatible: the pieces may share a group or an overlap. */
  function Related(c: Config): (Piece, Piece) -> bool {
    (previous: Piece, current: Piece) =>
      previous.block.sectionPath == current.block.sectionPath && Compatible(c, previous, current)
  }

  // ----- pieces

  function PieceAt(b: Block, slices: seq<Slice>, k: nat): Piece
    requires k < |slices|
  {
    Piece(b, k, slices[k].start, slices[k].end, slices[k].text)
  }

  function BlockPieces(b: Block, slices: seq<Slice>): (r: seq<Piece>)
    ensures |r| == |slices| && forall k | 0 <= k < |r| :: r[k] == PieceAt(b, slices, k)
  {
    seq(|slices|, k requires 0 <= k < |slices| => PieceAt(b, slices, k))
  }

  ghost function PiecesOf(blocks: seq<Block>, maximum: nat): seq<Piece>
    requires maximum > 0
  {
    if blocks == [] then [] else
      var last := blocks[|blocks| - 1];
      PiecesOf(blocks[..|blocks| - 1], maximum) + BlockPieces(last, TextSlices(last.text, maximum))
  }

  method CutBlocks(blocks: seq<Block>, maximum: nat) returns (pieces: seq<Piece>)
    requires maximum > 0
    ensures pieces == PiecesOf(blocks, maximum)
  {
    pieces := [];
    for i := 0 to |blocks|
      invariant pieces == PiecesOf(blocks[..i], maximum)
    {
      var slices := SplitText(blocks[i].text, maximum);
      assert blocks[..i + 1][..i] == blocks[..i];
      pieces := pieces + BlockPieces(blocks[i], slices);
    }
    assert blocks[..|blocks|] == blocks;
  }

  // ----- identity

  /** What a piece contributes to its chunk's identity. */
  function Ident(p: Piece): string {
    p.block.blockId + (":" + (Decimal(p.partIndex) + (":" + (Decimal(p.start) + (":" + Decimal(p.end))))))
  }

  function PieceIdent(): Piece -> string {
    (p: Piece) => Ident(p)
  }

  function PieceBlockId(): Piece -> string {
    (p: Piece) => p.block.blockId
  }

  function StringLength(): string -> nat {
    (s: string) => |s|
  }

  function IdentityRanges(group: seq<Piece>): string {
    Join(Map(group, PieceIdent()), ";")
  }

  function Content(group: seq<Piece>): string {
    Join(Map(group, PieceText()), "\n\n")
  }

  /** The revisions that enter every chunk ID of one call. */
  datatype Revisions = Revisions(chunking: string, pipelineChunking: string, pipelineEnrichment: string)

  function IdentityValues(source: Source, rev: Revisions, group: seq<Piece>): seq<string> {
    [source.kbId, source.sourceId, source.sha256, IdentityRanges(group),
     rev.chunking, rev.pipelineChunking, rev.pipelineEnrichment, Content(group)]
  }

  datatype Chunk = Chunk(
    chunkId: Sha256,
    kbId: string,
    sourceId: string,
    sourceRevision: string,
    ordinal: nat,
    content: string,
    sectionPath: seq<string>,
    blockIds: seq<string>)

  function ChunkOf(source: Source, rev: Revisions, group: seq<Piece>, ordinal: nat): Chunk
    requires group != []
  {
    Chunk(Sha256(Encode(IdentityValues(source, rev, group))), source.kbId, source.sourceId, source.sha256, ordinal,
          Content(group), group[0].block.sectionPath,
          FirstOccurrences(Map(group, PieceBlockId())))
  }

  // ----- joins

  lemma {:induction false} JoinLength(parts: seq<string>, separator: string)
    ensures |Join(parts, separator)| == Grouping.Total(parts, StringLength()) +
              (if parts == [] then 0 else |parts| - 1) * |separator|
  {
    if |parts| > 1 { JoinLength(parts[1..], separator); }
  }

  lemma {:induction false} TextTotal(group: seq<Piece>)
    ensures Grouping.Total(Map(group, PieceText()), StringLength()) == Grouping.Total(group, TextLength())
  {
    if group != [] {
      TextTotal(group[1..]);
      assert Map(group, PieceText())[1..] == Map(group[1..], PieceText());
    }
  }

  /** `_joined_length` is the length of the content it stands for. */
  lemma ContentLength(group: seq<Piece>)
    ensures |Content(group)| == JoinedLength(group, TextLength())
  {
    JoinLength(Map(group, PieceText()), "\n\n");
    TextTotal(group);
  }

  lemma ContentNotBlank(group: seq<Piece>)
    requires group != [] && group[0].text != [] && !IsSpace(group[0].text[0])
    ensures !Blank(Content(group))
  {
    var parts := Map(group, PieceText());
    assert parts[0] <= Content(group);
    assert Content(group)[0] == parts[0][0];
  }

  // ----- distinct identities

  lemma {:induction false} DigitsPrefix(d: string, e: string, x: string, y: string)
    requires (forall i | 0 <= i < |d| :: IsDigit(d[i])) && (forall i | 0 <= i < |e| :: IsDigit(e[i]))
    requires (x == [] || !IsDigit(x[0])) && (y == [] || !IsDigit(y[0])) && d + x == e + y
    ensures d == e && x == y
  {
    var s := d + x;
    assert forall i | 0 <= i < |d| :: IsDigit(s[i]) && s[i] == d[i];
    assert forall i | 0 <= i < |e| :: IsDigit(s[i]) && s[i] == e[i];
    assert (|d| < |s| ==> s[|d|] == x[0]) && (|e| < |s| ==> s[|e|] == y[0]);
    assert |d| == |e| && d == e;
    assert x == s[|d|..] && y == s[|e|..];
  }

  lemma DecimalPrefix(m: nat, n: nat, x: string, y: string)
    requires (x == [] || !IsDigit(x[0])) && (y == [] || !IsDigit(y[0])) && Decimal(m) + x == Decimal(n) + y
    ensures m == n && x == y
  {
    DigitsPrefix(Decimal(m), Decimal(n), x, y);
    DecimalInjective(m, n);
  }

  lemma ColonDecimalPrefix(m: nat, n: nat, x: string, y: string)
    requires (x == [] || !IsDigit(x[0])) && (y == [] || !IsDigit(y[0]))
    requires ":" + (Decimal(m) + x) == ":" + (Decimal(n) + y)
    ensures m == n && x == y
  {
    var p, q := ":" + (Decimal(m) + x), ":" + (Decimal(n) + y);
    assert p[1..] == Decimal(m) + x && q[1..] == Decimal(n) + y;
    DecimalPrefix(m, n, x, y);
  }

  predicate SameKey(p: Piece, q: Piece) {
    p.block.blockId == q.block.blockId && p.partIndex == q.partIndex && p.start == q.start && p.end == q.end
  }

  /** A rendered piece can be read back from the front of any text: the block ID has a fixed
      length and the numbers end at a non-digit, whatever characters the block ID holds. */
  lemma IdentPrefix(p: Piece, q: Piece, x: string, y: string)
    requires |p.block.blockId| == |q.block.blockId|
    requires (x == [] || x[0] == ';') && (y == [] || y[0] == ';') && Ident(p) + x == Ident(q) + y
    ensures SameKey(p, q) && x == y
  {
    IdentParts(p, x);
    IdentParts(q, y);
    SamePrefix(p.block.blockId, q.block.blockId, AfterId(p, x), AfterId(q, y));
    ColonDecimalPrefix(p.partIndex, q.partIndex, AfterPart(p, x), AfterPart(q, y));
    ColonDecimalPrefix(p.start, q.start, AfterStart(p, x), AfterStart(q, y));
    ColonDecimalPrefix(p.end, q.end, x, y);
  }

  function AfterStart(p: Piece, x: string): string { ":" + (Decimal(p.end) + x) }
  function AfterPart(p: Piece, x: string): string { ":" + (Decimal(p.start) + AfterStart(p, x)) }
  function AfterId(p: Piece, x: string): string { ":" + (Decimal(p.partIndex) + AfterPart(p, x)) }

  lemma IdentParts(p: Piece, x: string)
    ensures Ident(p) + x == p.block.blockId + AfterId(p, x)
  {
    var end := ":" + Decimal(p.end);
    var start := Decimal(p.start) + end;
    var part := Decimal(p.partIndex) + (":" + start);
    Associates(":", Decimal(p.end), x);
    Associates(Decimal(p.start), end, x);
    Associates(":", start, x);
    Associates(Decimal(p.partIndex), ":" + start, x);
    Associates(":", part, x);
    Associates(p.block.blockId, ":" + part, x);
  }

  lemma SamePrefix(a: string, b: string, x: string, y: string)
    requires |a| == |b| && a + x == b + y
    ensures a == b && x == y
  {
    assert a == (a + x)[..|a|] && b == (b + y)[..|b|];
    assert x == (a + x)[|a|..] && y == (b + y)[|b|..];
  }

  /** The identity ranges behind those of the first piece. */
  function AfterFirst(g: seq<Piece>): string
    requires g != []
  {
    if |g| == 1 then "" else ";" + IdentityRanges(g[1..])
  }

  lemma FirstIdent(g: seq<Piece>)
    requires g != []
    ensures IdentityRanges(g) == Ident(g[0]) + AfterFirst(g)
    ensures AfterFirst(g) == [] <==> |g| == 1
    ensures |g| > 1 ==> AfterFirst(g)[0] == ';'
  {
    JoinFirst(Map(g, PieceIdent()), ";");
    assert Map(g, PieceIdent())[1..] == Map(g[1..], PieceIdent());
  }

  /** Different sequences of pieces have different identity ranges. */
  lemma {:induction false} IdentityInjective(g: seq<Piece>, h: seq<Piece>, n: nat)
    requires g != [] && h != [] && n > 0
    requires (forall i | 0 <= i < |g| :: |g[i].block.blockId| == n)
    requires (forall i | 0 <= i < |h| :: |h[i].block.blockId| == n)
    requires IdentityRanges(g) == IdentityRanges(h)
    ensures |g| == |h| && forall i | 0 <= i < |g| :: SameKey(g[i], h[i])
  {
    FirstIdent(g);
    FirstIdent(h);
    IdentPrefix(g[0], h[0], AfterFirst(g), AfterFirst(h));
    if |g| > 1 {
      assert AfterFirst(g)[1..] == IdentityRanges(g[1..]) && AfterFirst(h)[1..] == IdentityRanges(h[1..]);
      IdentityInjective(g[1..], h[1..], n);
      forall i | 0 <= i < |g| ensures SameKey(g[i], h[i]) {
        if i > 0 { assert g[i] == g[1..][i - 1] && h[i] == h[1..][i - 1]; }
      }
    }
  }

  // ----- everything fits the digest's length fields

  lemma {:induction false} SlicesFew(text: string, maximum: nat, cuts: nat -> nat, cursor: nat)
    requires Advances(text, maximum, cuts) && cursor <= |text|
    ensures |Slices(text, maximum, cuts, cursor)| <= |text| - cursor
    decreases |text| - cursor
  {
    var start := SkipSpace(text, cursor);
    if start < |text| { SlicesFew(text, maximum, cuts, cuts(start)); }
  }

  lemma SliceCount(text: string, maximum: nat)
    requires maximum > 0
    ensures |TextSlices(text, maximum)| <= |text|
    ensures !Blank(text) ==> TextSlices(text, maximum) != []
  {
    CutsAdvance(text, maximum);
    SlicesFew(text, maximum, Cuts(text, maximum), 0);
    if !Blank(text) {
      var i :| 0 <= i < |text| && !IsSpace(text[i]);
      var k := SlicesCover(text, maximum, Cuts(text, maximum), 0, i);
    }
  }

  /** A well-formed piece of one of the blocks. */
  ghost predicate PieceOf(blocks: seq<Block>, maximum: nat, p: Piece)
    requires maximum > 0
  {
    var slices := TextSlices(p.block.text, maximum);
    p.block in blocks && p.partIndex < |slices| && p == PieceAt(p.block, slices, p.partIndex)
  }

  lemma {:induction false} PiecesFew(blocks: seq<Block>, maximum: nat)
    requires maximum > 0 && forall b | b in blocks :: ValidBlock(b)
    ensures |PiecesOf(blocks, maximum)| <= |blocks| * 2_000_000
    ensures blocks != [] ==> PiecesOf(blocks, maximum) != []
  {
    if blocks != [] {
      var n := |blocks| - 1;
      assert forall b | b in blocks[..n] :: b in blocks;
      PiecesFew(blocks[..n], maximum);
      assert blocks[n] in blocks && ValidBlock(blocks[n]);
      SliceCount(blocks[n].text, maximum);
    }
  }

  lemma {:induction false} PiecesFrom(blocks: seq<Block>, maximum: nat, i: nat)
    requires maximum > 0 && i < |PiecesOf(blocks, maximum)|
    ensures PieceOf(blocks, maximum, PiecesOf(blocks, maximum)[i])
  {
    var n := |blocks| - 1;
    var before := PiecesOf(blocks[..n], maximum);
    if i < |before| {
      PiecesFrom(blocks[..n], maximum, i);
      assert before[i].block in blocks;
    } else {
      assert PiecesOf(blocks, maximum)[i] == PieceAt(blocks[n], TextSlices(blocks[n].text, maximum), i - |before|);
    }
  }

  /** No two pieces of a document have the same block and part. */
  lemma {:induction false} PiecesDistinct(blocks: seq<Block>, maximum: nat, i: nat, j: nat)
    requires maximum > 0 && i < j < |PiecesOf(blocks, maximum)|
    requires forall k, l | 0 <= k < l < |blocks| :: blocks[k].blockId != blocks[l].blockId
    ensures var pieces := PiecesOf(blocks, maximum); !SameKey(pieces[i], pieces[j])
  {
    var n := |blocks| - 1;
    var before := PiecesOf(blocks[..n], maximum);
    if j < |before| {
      PiecesDistinct(blocks[..n], maximum, i, j);
    } else if i < |before| {
      PiecesFrom(blocks[..n], maximum, i);
      var k :| 0 <= k < n && blocks[..n][k] == before[i].block;
    }
  }

  lemma SevenDigits(n: nat)
    requires n < 10_000_000
    ensures |Decimal(n)| <= 7
  {
    var d1, d2, d3, d4, d5, d6 := n / 10, n / 100, n / 1000, n / 10000, n / 100000, n / 1000000;
    assert d2 == d1 / 10 && d3 == d2 / 10 && d4 == d3 / 10 && d5 == d4 / 10 && d6 == d5 / 10;
    assert |Decimal(d6)| == 1;
    assert |Decimal(d5)| <= 2;
    assert |Decimal(d4)| <= 3;
    assert |Decimal(d3)| <= 4;
    assert |Decimal(d2)| <= 5;
    assert |Decimal(d1)| <= 6;
  }

  ghost predicate Small(p: Piece) {
    |p.block.blockId| == 36 && p.partIndex < 10_000_000 && p.start < 10_000_000 && p.end < 10_000_000
  }

  lemma {:induction false} IdentityShort(group: seq<Piece>)
    requires forall i | 0 <= i < |group| :: Small(group[i])
    ensures |IdentityRanges(group)| <= 61 * |group|
  {
    if group != [] {
      SevenDigits(group[0].partIndex);
      SevenDigits(group[0].start);
      SevenDigits(group[0].end);
      assert |Ident(group[0])| <= 60;
      IdentityShort(group[1..]);
      JoinFirst(Map(group, PieceIdent()), ";");
      assert Map(group, PieceIdent())[1..] == Map(group[1..], PieceIdent());
    }
  }

  lemma LongEncodable(text: string)
    requires |text| <= 4_000_000_000_000_000
    ensures |Utf8(text)| < Pow256(8)
  {
    Utf8Length(text);
    assert Pow256(2) == 65536;
    assert Pow256(4) == 4294967296;
    assert Pow256(6) == 65536 * 4294967296;
    assert Pow256(8) == 65536 * Pow256(6);
  }

  // ----- well-cut pieces

  /** What the pieces of valid blocks look like. */
  ghost predicate GoodPiece(p: Piece, maximum: nat) {
    Small(p) && 1 <= |p.text| <= maximum && !IsSpace(p.text[0])
  }

  /** Good pieces, no two alike, and a block ID names one block. */
  ghost predicate WellCut(pieces: seq<Piece>, maximum: nat) {
    && |pieces| <= 200_000_000_000
    && (forall i | 0 <= i < |pieces| :: GoodPiece(pieces[i], maximum))
    && (forall i, j | 0 <= i < j < |pieces| :: !SameKey(pieces[i], pieces[j]))
    && forall i, j | 0 <= i < j < |pieces| && pieces[i].block.blockId == pieces[j].block.blockId ::
         pieces[i].block == pieces[j].block
  }

  lemma PieceGood(blocks: seq<Block>, maximum: nat, i: nat)
    requires 0 < maximum <= 32_000 && forall b | b in blocks :: ValidBlock(b)
    requires i < |PiecesOf(blocks, maximum)|
    ensures GoodPiece(PiecesOf(blocks, maximum)[i], maximum)
  {
    PiecesFrom(blocks, maximum, i);
    var p := PiecesOf(blocks, maximum)[i];
    assert ValidBlock(p.block);
    SliceCount(p.block.text, maximum);
    CutsAdvance(p.block.text, maximum);
    SlicesExact(p.block.text, maximum, Cuts(p.block.text, maximum), 0, p.partIndex);
  }

  lemma BlockIdOwns(blocks: seq<Block>, a: Block, b: Block)
    requires a in blocks && b in blocks && a.blockId == b.blockId
    requires forall i, j | 0 <= i < j < |blocks| :: blocks[i].blockId != blocks[j].blockId
    ensures a == b
  {
    var i :| 0 <= i < |blocks| && blocks[i] == a;
    var j :| 0 <= j < |blocks| && blocks[j] == b;
  }

  lemma PiecesWellCut(blocks: seq<Block>, maximum: nat)
    requires 0 < maximum <= 32_000 && (forall b | b in blocks :: ValidBlock(b)) && |blocks| <= 100_000
    requires forall k, l | 0 <= k < l < |blocks| :: blocks[k].blockId != blocks[l].blockId
    ensures WellCut(PiecesOf(blocks, maximum), maximum)
  {
    var pieces := PiecesOf(blocks, maximum);
    PiecesFew(blocks, maximum);
    forall i | 0 <= i < |pieces| ensures GoodPiece(pieces[i], maximum) { PieceGood(blocks, maximum, i); }
    forall i, j | 0 <= i < j < |pieces|
      ensures !SameKey(pieces[i], pieces[j])
    {
      PiecesDistinct(blocks, maximum, i, j);
    }
    forall i, j | 0 <= i < j < |pieces| && pieces[i].block.blockId == pieces[j].block.blockId
      ensures pieces[i].block == pieces[j].block
    {
      PiecesFrom(blocks, maximum, i);
      PiecesFrom(blocks, maximum, j);
      BlockIdOwns(blocks, pieces[i].block, pieces[j].block);
    }
  }

  ghost predicate Bounded(source: Source, rev: Revisions) {
    && |source.kbId| <= 512 && |source.sourceId| <= 512 && |source.sha256| <= 512
    && |rev.chunking| <= 512 && |rev.pipelineChunking| <= 512 && |rev.pipelineEnrichment| <= 512
  }

  lemma GroupEncodable(source: Source, rev: Revisions, group: seq<Piece>)
    requires Bounded(source, rev) && |group| <= 200_000_000_000 && |Content(group)| <= 32_000
    requires forall i | 0 <= i < |group| :: Small(group[i])
    ensures Encodable(IdentityValues(source, rev, group))
  {
    IdentityShort(group);
    var values := IdentityValues(source, rev, group);
    forall i | 0 <= i < |values| ensures |Utf8(values[i])| < Pow256(8) { LongEncodable(values[i]); }
  }

  lemma IdentitiesDiffer(pieces: seq<Piece>, maximum: nat, a: nat, b: nat, c: nat, d: nat)
    requires WellCut(pieces, maximum) && a < b < d <= |pieces| && c < d
    ensures IdentityRanges(pieces[a..b]) != IdentityRanges(pieces[c..d])
  {
    var g, h := pieces[a..b], pieces[c..d];
    assert !SameKey(g[|g| - 1], h[|h| - 1]);
    if IdentityRanges(g) == IdentityRanges(h) {
      IdentityInjective(g, h, 36);
      assert false;
    }
  }

  /** Groups that end at different pieces have different chunk IDs. */
  lemma ChunkIdsDiffer(source: Source, rev: Revisions, pieces: seq<Piece>, maximum: nat, a: nat, b: nat, c: nat, d: nat)
    requires WellCut(pieces, maximum) && a < b < d <= |pieces| && c < d
    requires Encodable(IdentityValues(source, rev, pieces[a..b]))
    requires Encodable(IdentityValues(source, rev, pieces[c..d]))
    ensures Encode(IdentityValues(source, rev, pieces[a..b])) != Encode(IdentityValues(source, rev, pieces[c..d]))
  {
    var u, v := IdentityValues(source, rev, pieces[a..b]), IdentityValues(source, rev, pieces[c..d]);
    IdentitiesDiffer(pieces, maximum, a, b, c, d);
    assert u[3] != v[3];
    if Encode(u) == Encode(v) {
      EncodeInjective(u, v);
      assert false;
    }
  }

  // ----- what the groups guarantee

  ghost predicate Grouped(pieces: seq<Piece>, config: Config, starts: seq<nat>, ends: seq<nat>) {
    IsGrouping(pieces, TextLength(), Related(config), config.maxChars, config.overlapChars, starts, ends)
  }

  ghost predicate RelatedRuns(pieces: seq<Piece>, config: Config, starts: seq<nat>, ends: seq<nat>) {
    && |starts| == |ends|
    && (forall k | 0 <= k < |ends| :: starts[k] < ends[k] <= |pieces|)
    && forall k, b | 0 <= k < |ends| && starts[k] < b < ends[k] :: Related(config)(pieces[b - 1], pieces[b])
  }

  lemma GroupedBounds(pieces: seq<Piece>, config: Config, starts: seq<nat>, ends: seq<nat>)
    requires WellCut(pieces, config.maxChars) && Grouped(pieces, config, starts, ends)
    ensures Contiguous(|pieces|, starts, ends)
    ensures forall k | 0 <= k < |ends| :: starts[k] < ends[k] <= |pieces| &&
              |Content(pieces[starts[k]..ends[k]])| <= config.maxChars
    ensures forall k | 0 <= k < |ends| - 1 ::
      JoinedLength(pieces[starts[k + 1]..ends[k]], TextLength()) <= config.overlapChars
    ensures RelatedRuns(pieces, config, starts, ends)
  {
    GroupingBounds(pieces, TextLength(), Related(config), config.maxChars, config.overlapChars, starts, ends);
    forall k | 0 <= k < |ends| ensures |Content(pieces[starts[k]..ends[k]])| <= config.maxChars {
      ContentLength(pieces[starts[k]..ends[k]]);
    }
  }

  ghost predicate GroupGood(source: Source, rev: Revisions, group: seq<Piece>, maximum: nat) {
    && group != [] && !Blank(Content(group)) && |Content(group)| <= maximum
    && Encodable(IdentityValues(source, rev, group))
  }

  lemma GroupReady(source: Source, rev: Revisions, group: seq<Piece>, maximum: nat)
    requires Bounded(source, rev) && 1 <= |group| <= 200_000_000_000 && maximum <= 32_000
    requires |Content(group)| <= maximum && forall i | 0 <= i < |group| :: GoodPiece(group[i], maximum)
    ensures GroupGood(source, rev, group, maximum)
  {
    assert GoodPiece(group[0], maximum);
    ContentNotBlank(group);
    GroupEncodable(source, rev, group);
  }

  ghost predicate AllGood(pieces: seq<Piece>, maximum: nat) {
    forall i | 0 <= i < |pieces| :: GoodPiece(pieces[i], maximum)
  }

  lemma SliceGood(pieces: seq<Piece>, maximum: nat, a: nat, b: nat)
    requires AllGood(pieces, maximum) && a < b <= |pieces|
    ensures AllGood(pieces[a..b], maximum)
  {
  }

  lemma GroupSpan(pieces: seq<Piece>, config: Config, starts: seq<nat>, ends: seq<nat>, k: nat)
    requires WellCut(pieces, config.maxChars) && Grouped(pieces, config, starts, ends) && k < |ends|
    ensures starts[k] < ends[k] <= |pieces| <= 200_000_000_000
    ensures |Content(pieces[starts[k]..ends[k]])| <= config.maxChars
  {
    GroupedBounds(pieces, config, starts, ends);
  }

  /** Every group can be emitted: its content is neither blank nor too long. */
  lemma GroupsGood(
    source: Source, rev: Revisions, pieces: seq<Piece>, config: Config, starts: seq<nat>, ends: seq<nat>, k: nat)
    requires ValidConfig(config) && Bounded(source, rev) && WellCut(pieces, config.maxChars)
    requires Grouped(pieces, config, starts, ends) && k < |ends|
    ensures starts[k] < ends[k] <= |pieces| && GroupGood(source, rev, pieces[starts[k]..ends[k]], config.maxChars)
  {
    GroupSpan(pieces, config, starts, ends, k);
    assert AllGood(pieces, config.maxChars);
    SliceReady(source, rev, pieces, config.maxChars, starts[k], ends[k]);
  }

  lemma SliceReady(source: Source, rev: Revisions, pieces: seq<Piece>, maximum: nat, a: nat, b: nat)
    requires Bounded(source, rev) && AllGood(pieces, maximum) && maximum <= 32_000
    requires a < b <= |pieces| <= 200_000_000_000 && |Content(pieces[a..b])| <= maximum
    ensures GroupGood(source, rev, pieces[a..b], maximum)
  {
    SliceGood(pieces, maximum, a, b);
    GroupReady(source, rev, pieces[a..b], maximum);
  }

  lemma {:induction false} SectionStays(pieces: seq<Piece>, config: Config, a: nat, b: nat)
    requires a <= b < |pieces| && forall j | a < j <= b :: Related(config)(pieces[j - 1], pieces[j])
    ensures pieces[b].block.sectionPath == pieces[a].block.sectionPath
  {
    if a < b { SectionStays(pieces, config, a, b - 1); }
  }

  /** With separated modalities, a run of compatible pieces that holds a table or an image holds
      one block only. */
  lemma {:induction false} IsolatedStays(pieces: seq<Piece>, config: Config, a: nat, b: nat, i: nat)
    requires config.separateModalities && WellCut(pieces, config.maxChars)
    requires a <= i <= b < |pieces| && Isolated(pieces[i].block.modality)
    requires forall j | a < j <= b :: Related(config)(pieces[j - 1], pieces[j])
    ensures forall j | a <= j <= b :: pieces[j].block == pieces[i].block
    decreases b - a
  {
    if i < b {
      assert Related(config)(pieces[b - 1], pieces[b]);
      IsolatedStays(pieces, config, a, b - 1, i);
    } else if a < i {
      assert Related(config)(pieces[b - 1], pieces[b]);
      IsolatedStays(pieces, config, a, b - 1, b - 1);
    }
  }

  /** Chunk groups are contiguous intervals of the pieces that drop nothing, with strictly
      increasing ends; consecutive ones overlap by at most `overlap_chars`; contents stay within
      `max_chars`; a group stays within one section and, with separated modalities, a table or image
      stays with its own block. */
  lemma GroupGuarantees(pieces: seq<Piece>, config: Config, starts: seq<nat>, ends: seq<nat>)
    requires WellCut(pieces, config.maxChars) && Grouped(pieces, config, starts, ends)
    ensures Contiguous(|pieces|, starts, ends)
    ensures forall k | 0 <= k < |ends| :: starts[k] < ends[k] <= |pieces| &&
              |Content(pieces[starts[k]..ends[k]])| <= config.maxChars
    ensures forall k | 0 <= k < |ends| - 1 ::
      JoinedLength(pieces[starts[k + 1]..ends[k]], TextLength()) <= config.overlapChars
    ensures forall k | 0 <= k < |ends| :: OneSection(pieces, starts[k], ends[k])
    ensures config.separateModalities ==> forall k | 0 <= k < |ends| :: IsolatedAlone(pieces, starts[k], ends[k])
  {
    GroupedBounds(pieces, config, starts, ends);
    forall k | 0 <= k < |ends|
      ensures OneSection(pieces, starts[k], ends[k])
      ensures config.separateModalities ==> IsolatedAlone(pieces, starts[k], ends[k])
    {
      RunGuarantees(pieces, config, starts[k], ends[k]);
    }
  }

  ghost predicate OneSection(pieces: seq<Piece>, a: nat, b: nat)
    requires a < b <= |pieces|
  {
    forall i | a <= i < b :: pieces[i].block.sectionPath == pieces[a].block.sectionPath
  }

  ghost predicate IsolatedAlone(pieces: seq<Piece>, a: nat, b: nat)
    requires a < b <= |pieces|
  {
    forall i, j | a <= i < b && a <= j < b && Isolated(pieces[i].block.modality) :: pieces[j].block == pieces[i].block
  }

  lemma RunGuarantees(pieces: seq<Piece>, config: Config, a: nat, b: nat)
    requires WellCut(pieces, config.maxChars) && a < b <= |pieces|
    requires forall j | a < j < b :: Related(config)(pieces[j - 1], pieces[j])
    ensures OneSection(pieces, a, b)
    ensures config.separateModalities ==> IsolatedAlone(pieces, a, b)
  {
    forall i | a <= i < b ensures pieces[i].block.sectionPath == pieces[a].block.sectionPath {
      SectionStays(pieces, config, a, i);
    }
    if config.separateModalities {
      forall i, j | a <= i < b && a <= j < b && Isolated(pieces[i].block.modality)
        ensures pieces[j].block == pieces[i].block
      {
        IsolatedStays(pieces, config, a, b - 1, i);
      }
    }
  }

  // ----- the function

  /** The checks on the block list: one source revision, unique IDs, increasing ordinals. */
  ghost predicate InOrder(source: Source, blocks: seq<Block>) {
    && (forall i | 0 <= i < |blocks| ::
      blocks[i].sourceId == source.sourceId && blocks[i].sourceRevision == source.sha256)
    && (forall i, j | 0 <= i < j < |blocks| :: blocks[i].blockId != blocks[j].blockId)
    && (forall i, j | 0 <= i < j < |blocks| :: blocks[i].ordinal < blocks[j].ordinal)
  }

  ghost predicate BlocksAccepted(source: Source, blocks: seq<Block>) {
    1 <= |blocks| <= 100_000 && InOrder(source, blocks)
  }

  function BlockIdsOf(blocks: seq<Block>): set<string> {
    set x | x in blocks :: x.blockId
  }

  lemma BlockIdsSnoc(blocks: seq<Block>, b: Block)
    ensures BlockIdsOf(blocks + [b]) == BlockIdsOf(blocks) + {b.blockId}
  {
    var all := blocks + [b];
    assert all[|blocks|] == b && forall x :: x in all <==> x in blocks || x == b;
  }

  lemma InOrderSnoc(source: Source, blocks: seq<Block>, b: Block)
    ensures InOrder(source, blocks + [b]) <==>
      && InOrder(source, blocks)
      && b.sourceId == source.sourceId && b.sourceRevision == source.sha256
      && b.blockId !in BlockIdsOf(blocks)
      && (blocks == [] || blocks[|blocks| - 1].ordinal < b.ordinal)
  {
    var all := blocks + [b];
    assert all[|blocks|] == b && forall i | 0 <= i < |blocks| :: all[i] == blocks[i];
    if InOrder(source, all) {
      forall x | x in blocks ensures x.blockId != b.blockId {
        var i :| 0 <= i < |blocks| && blocks[i] == x;
        assert all[i].blockId != all[|blocks|].blockId;
      }
      if blocks != [] { assert all[|blocks| - 1].ordinal < all[|blocks|].ordinal; }
    }
    assert forall i | 0 <= i < |blocks| :: blocks[i] in blocks;
  }

  lemma InOrderPrefix(source: Source, blocks: seq<Block>, i: nat)
    requires i <= |blocks| && InOrder(source, blocks)
    ensures InOrder(source, blocks[..i])
  {
  }

  lemma NotInOrder(source: Source, blocks: seq<Block>, i: nat)
    requires i <= |blocks| && !InOrder(source, blocks[..i])
    ensures !BlocksAccepted(source, blocks)
  {
    if InOrder(source, blocks) { InOrderPrefix(source, blocks, i); }
  }

  function PriorOrdinal(blocks: seq<Block>): int {
    if blocks == [] then -1 else blocks[|blocks| - 1].ordinal
  }

  /** The loop's test extends the accepted prefix by exactly the blocks that belong. */
  lemma NextBlock(source: Source, blocks: seq<Block>, i: nat)
    requires i < |blocks| && InOrder(source, blocks[..i]) && blocks[i].ordinal >= 0
    ensures InOrder(source, blocks[..i + 1]) <==>
      && blocks[i].sourceId == source.sourceId && blocks[i].sourceRevision == source.sha256
      && blocks[i].blockId !in BlockIdsOf(blocks[..i]) && blocks[i].ordinal > PriorOrdinal(blocks[..i])
    ensures BlockIdsOf(blocks[..i + 1]) == BlockIdsOf(blocks[..i]) + {blocks[i].blockId}
    ensures PriorOrdinal(blocks[..i + 1]) == blocks[i].ordinal
  {
    assert blocks[..i + 1] == blocks[..i] + [blocks[i]];
    InOrderSnoc(source, blocks[..i], blocks[i]);
    BlockIdsSnoc(blocks[..i], blocks[i]);
  }

  method CheckBlocks(source: Source, blocks: seq<Block>) returns (ok: bool)
    requires forall b | b in blocks :: b.ordinal >= 0
    ensures ok <==> BlocksAccepted(source, blocks)
  {
    ok := 1 <= |blocks| <= 100_000;
    var seenBlocks: set<string> := {};
    var priorOrdinal := -1;
    var i := 0;
    while i < |blocks| && ok
      invariant 0 <= i <= |blocks|
      invariant ok ==> seenBlocks == BlockIdsOf(blocks[..i]) && priorOrdinal == PriorOrdinal(blocks[..i])
      invariant ok ==> 1 <= |blocks| <= 100_000 && InOrder(source, blocks[..i])
      invariant !ok ==> !BlocksAccepted(source, blocks)
    {
      var block := blocks[i];
      assert block in blocks;
      NextBlock(source, blocks, i);
      ok := block.sourceId == source.sourceId && block.sourceRevision == source.sha256
         && block.blockId !in seenBlocks && block.ordinal > priorOrdinal;
      if !ok { NotInOrder(source, blocks, i + 1); }
      seenBlocks := seenBlocks + {block.blockId};
      priorOrdinal := block.ordinal;
      i := i + 1;
    }
    if ok { assert blocks[..i] == blocks; }
  }

  /** One chunk for each group, numbered in order, with pairwise different IDs. */
  ghost predicate ChunksOf(
    source: Source, pieces: seq<Piece>, rev: Revisions, chunks: seq<Chunk>, starts: seq<nat>, ends: seq<nat>)
  {
    && |chunks| == |starts| == |ends|
    && (forall k | 0 <= k < |ends| :: starts[k] < ends[k] <= |pieces|)
    && (forall k | 0 <= k < |ends| :: chunks[k] == ChunkOf(source, rev, pieces[starts[k]..ends[k]], k))
    && forall k, l | 0 <= k < l < |chunks| :: chunks[k].chunkId != chunks[l].chunkId
  }

  lemma {:induction false} EndsIncrease(pieces: seq<Piece>, starts: seq<nat>, ends: seq<nat>, k: nat, l: nat)
    requires Contiguous(|pieces|, starts, ends) && k < l < |ends|
    ensures ends[k] < ends[l]
  {
    assert l - 1 < |ends| - 1;
    if k < l - 1 { EndsIncrease(pieces, starts, ends, k, l - 1); }
  }

  /** One pass of the emission loop; the bounds error it guards against cannot be raised. */
  method EmitChunk(source: Source, maximum: nat, rev: Revisions, group: seq<Piece>, ordinal: nat) returns (chunk: Chunk)
    requires GroupGood(source, rev, group, maximum)
    ensures chunk == ChunkOf(source, rev, group, ordinal)
  {
    var content := Content(group);
    assert !Blank(content) && |content| <= maximum;
    var digest := StableDigest(IdentityValues(source, rev, group));
    var blockIds := FirstOccurrences(Map(group, PieceBlockId()));
    chunk := Chunk(digest.value, source.kbId, source.sourceId, source.sha256, ordinal, content,
                   group[0].block.sectionPath, blockIds);
  }

  method EmitChunks(
    source: Source, ghost pieces: seq<Piece>, config: Config, rev: Revisions,
    groups: seq<seq<Piece>>, ghost starts: seq<nat>, ghost ends: seq<nat>) returns (chunks: seq<Chunk>)
    requires ValidConfig(config) && Bounded(source, rev) && WellCut(pieces, config.maxChars)
    requires Grouped(pieces, config, starts, ends) && Intervals(pieces, groups, starts, ends)
    ensures ChunksOf(source, pieces, rev, chunks, starts, ends)
  {
    forall k | 0 <= k < |groups| ensures GroupGood(source, rev, groups[k], config.maxChars) {
      GroupsGood(source, rev, pieces, config, starts, ends, k);
    }
    chunks := EmitGroups(source, config.maxChars, rev, groups);
    // nor can the error for colliding chunk IDs
    forall k, l | 0 <= k < l < |chunks| ensures chunks[k].chunkId != chunks[l].chunkId {
      DistinctChunks(source, rev, pieces, config, starts, ends, k, l);
    }
  }

  method EmitGroups(source: Source, maximum: nat, rev: Revisions, groups: seq<seq<Piece>>) returns (chunks: seq<Chunk>)
    requires forall k | 0 <= k < |groups| :: GroupGood(source, rev, groups[k], maximum)
    ensures |chunks| == |groups|
    ensures forall k | 0 <= k < |groups| :: groups[k] != [] && chunks[k] == ChunkOf(source, rev, groups[k], k)
  {
    chunks := [];
    for ordinal := 0 to |groups|
      invariant |chunks| == ordinal && Emitted(source, rev, groups, chunks)
    {
      var chunk := EmitChunk(source, maximum, rev, groups[ordinal], ordinal);
      EmittedSnoc(source, rev, groups, chunks, chunk);
      chunks := chunks + [chunk];
    }
  }

  /** The chunks so far are those of the first groups. */
  ghost predicate Emitted(source: Source, rev: Revisions, groups: seq<seq<Piece>>, chunks: seq<Chunk>) {
    && |chunks| <= |groups|
    && forall k | 0 <= k < |chunks| :: IsChunkOf(source, rev, groups[k], chunks[k], k)
  }

  ghost predicate IsChunkOf(source: Source, rev: Revisions, group: seq<Piece>, chunk: Chunk, ordinal: nat) {
    group != [] && chunk == ChunkOf(source, rev, group, ordinal)
  }

  lemma EmittedSnoc(source: Source, rev: Revisions, groups: seq<seq<Piece>>, chunks: seq<Chunk>, chunk: Chunk)
    requires Emitted(source, rev, groups, chunks) && |chunks| < |groups|
    requires IsChunkOf(source, rev, groups[|chunks|], chunk, |chunks|)
    ensures Emitted(source, rev, groups, chunks + [chunk])
  {
    var more := chunks + [chunk];
    forall k | 0 <= k < |more| ensures IsChunkOf(source, rev, groups[k], more[k], k) {
      if k < |chunks| { assert more[k] == chunks[k]; }
    }
  }

  lemma DistinctChunks(
    source: Source, rev: Revisions, pieces: seq<Piece>, config: Config, starts: seq<nat>, ends: seq<nat>, k: nat,
    l: nat)
    requires ValidConfig(config) && Bounded(source, rev) && WellCut(pieces, config.maxChars)
    requires Grouped(pieces, config, starts, ends) && k < l < |ends|
    ensures starts[k] < ends[k] <= |pieces| && starts[l] < ends[l] <= |pieces|
    ensures ChunkOf(source, rev, pieces[starts[k]..ends[k]], k).chunkId
         != ChunkOf(source, rev, pieces[starts[l]..ends[l]], l).chunkId
  {
    GroupsGood(source, rev, pieces, config, starts, ends, k);
    GroupsGood(source, rev, pieces, config, starts, ends, l);
    GroupedBounds(pieces, config, starts, ends);
    EndsIncrease(pieces, starts, ends, k, l);
    ChunkIdsDiffer(source, rev, pieces, config.maxChars, starts[k], ends[k], starts[l], ends[l]);
  }

  /** Succeeds exactly when the block list passes its checks: the errors for empty content,
      violated bounds and colliding chunk IDs cannot occur. */
  method ChunkBlocks(source: Source, blocks: seq<Block>, config: Config, rev: Revisions)
    returns (r: Result<seq<Chunk>>, ghost starts: seq<nat>, ghost ends: seq<nat>)
    requires ValidConfig(config) && Bounded(source, rev) && forall b | b in blocks :: ValidBlock(b)
    ensures r.Ok? <==> BlocksAccepted(source, blocks)
    ensures r.Ok? ==> WellCut(PiecesOf(blocks, config.maxChars), config.maxChars)
    ensures r.Ok? ==> Grouped(PiecesOf(blocks, config.maxChars), config, starts, ends)
    ensures r.Ok? ==> ChunksOf(source, PiecesOf(blocks, config.maxChars), rev, r.value, starts, ends)
  {
    starts, ends := [], [];
    var ok := CheckBlocks(source, blocks);
    if !ok {
      r := Err("blocks are rejected");
    } else {
      var pieces := CutBlocks(blocks, config.maxChars);
      PiecesFew(blocks, config.maxChars);
      PiecesWellCut(blocks, config.maxChars);
      assert pieces != [];  // "structured blocks produced no chunk content" cannot be raised
      var groups;
      groups, starts, ends := GroupPieces(pieces, TextLength(), Related(config), config.maxChars, config.overlapChars);
      var chunks := EmitChunks(source, pieces, config, rev, groups, starts, ends);
      r := Ok(chunks);
    }
  }
}
