/** The length-delimited encoding inside `stable_digest` (models.py). SHA-256 is taken to be
    injective: a digest is represented by the message that was hashed. */
module Digest {
  import opened Common

  type Byte = x: int | 0 <= x < 256

  datatype Sha256 = Sha256(message: seq<Byte>)

  // ----- `str(value).encode("utf-8")`

  function CharBytes(c: char): (r: seq<Byte>)
    ensures 1 <= |r| <= 4
  {
    var n := c as int;
    if n < 0x80 then [n]
    else if n < 0x800 then [0xC0 + n / 64, 0x80 + n % 64]
    else if n < 0x1_0000 then [0xE0 + n / 4096, 0x80 + n / 64 % 64, 0x80 + n % 64]
    else [0xF0 + n / 262144, 0x80 + n / 4096 % 64, 0x80 + n / 64 % 64, 0x80 + n % 64]
  }

  /** UTF-8 is self-delimiting: the first byte fixes the length, the bytes fix the character. */
  lemma CharBytesPrefix(a: char, b: char, x: seq<Byte>, y: seq<Byte>)
    requires CharBytes(a) + x == CharBytes(b) + y
    ensures a == b && x == y
  {
    var p, q := CharBytes(a), CharBytes(b);
    var s := p + x;
    assert s[0] == p[0] == q[0];
    assert |p| == |q|;
    assert forall i | 0 <= i < |p| :: p[i] == s[i] == q[i];
    CharDecode(a);
    CharDecode(b);
    assert p == q;
    assert x == s[|p|..] && y == s[|q|..];
  }

  function Decoded(r: seq<int>): int
    requires 1 <= |r| <= 4
  {
    if |r| == 1 then r[0]
    else if |r| == 2 then (r[0] - 0xC0) * 64 + (r[1] - 0x80)
    else if |r| == 3 then (r[0] - 0xE0) * 4096 + (r[1] - 0x80) * 64 + (r[2] - 0x80)
    else (r[0] - 0xF0) * 262144 + (r[1] - 0x80) * 4096 + (r[2] - 0x80) * 64 + (r[3] - 0x80)
  }

  lemma CharDecode(c: char)
    ensures Decoded(CharBytes(c)) == c as int
  {
    var n := c as int;
    assert n / 262144 == n / 4096 / 64 && n / 4096 == n / 64 / 64;
  }

  function Utf8(text: string): seq<Byte> {
    if text == [] then [] else CharBytes(text[0]) + Utf8(text[1..])
  }

  lemma {:induction false} Utf8Injective(a: string, b: string)
    requires Utf8(a) == Utf8(b)
    ensures a == b
  {
    if a != [] && b != [] {
      CharBytesPrefix(a[0], b[0], Utf8(a[1..]), Utf8(b[1..]));
      Utf8Injective(a[1..], b[1..]);
      assert a == [a[0]] + a[1..] && b == [b[0]] + b[1..];
    }
  }

  lemma {:induction false} Utf8Length(text: string)
    ensures |Utf8(text)| <= 4 * |text|
  {
    if text != [] { Utf8Length(text[1..]); }
  }

  // ----- `str(n)` of a natural number

  predicate IsDigit(c: char) { '0' <= c <= '9' }

  function Digit(n: nat): (c: char)
    requires n < 10
    ensures IsDigit(c)
  {
    ('0' as int + n) as char
  }

  function Decimal(n: nat): (r: string)
    ensures r != [] && forall i | 0 <= i < |r| :: IsDigit(r[i])
  {
    if n < 10 then [Digit(n)] else Decimal(n / 10) + [Digit(n % 10)]
  }

  function Value(digits: string): nat
    requires forall i | 0 <= i < |digits| :: IsDigit(digits[i])
  {
    if digits == [] then 0
    else
      assert IsDigit(digits[|digits| - 1]);
      Value(digits[..|digits| - 1]) * 10 + (digits[|digits| - 1] as int - '0' as int)
  }

  lemma {:induction false} DecimalValue(n: nat)
    ensures Value(Decimal(n)) == n
  {
    var r := Decimal(n);
    if n < 10 {
      assert r[..0] == [];
    } else {
      DecimalValue(n / 10);
      assert r[..|r| - 1] == Decimal(n / 10);
    }
  }

  lemma DecimalInjective(m: nat, n: nat)
    requires Decimal(m) == Decimal(n)
    ensures m == n
  {
    DecimalValue(m);
    DecimalValue(n);
  }

  // ----- `len(encoded).to_bytes(8, "big")`

  function Pow256(k: nat): nat {
    if k == 0 then 1 else 256 * Pow256(k - 1)
  }

  function BigEndian(n: nat, k: nat): (r: seq<Byte>)
    ensures |r| == k
  {
    if k == 0 then [] else BigEndian(n / 256, k - 1) + [n % 256]
  }

  /** The number whose base-256 digits these are, most significant first. */
  function FromBigEndian(bytes: seq<Byte>): nat {
    if bytes == [] then 0 else FromBigEndian(bytes[..|bytes| - 1]) * 256 + bytes[|bytes| - 1]
  }

  /** The length field is the length, most significant byte first. */
  lemma {:induction false} BigEndianMeaning(n: nat, width: nat)
    requires n < Pow256(width)
    ensures |BigEndian(n, width)| == width && FromBigEndian(BigEndian(n, width)) == n
  {
    if width > 0 {
      BigEndianMeaning(n / 256, width - 1);
      var bytes := BigEndian(n, width);
      assert bytes[..width - 1] == BigEndian(n / 256, width - 1);
    }
  }

  lemma BigEndianInjective(m: nat, n: nat, k: nat)
    requires m < Pow256(k) && n < Pow256(k) && BigEndian(m, k) == BigEndian(n, k)
    ensures m == n
  {
    BigEndianMeaning(m, k);
    BigEndianMeaning(n, k);
  }

  // ----- the digest

  ghost predicate Encodable(values: seq<string>) {
    forall i | 0 <= i < |values| :: |Utf8(values[i])| < Pow256(8)
  }

  /** The bytes fed to SHA-256, value by value: eight length bytes, then the value. */
  function Encode(values: seq<string>): seq<Byte> {
    if values == [] then []
    else BigEndian(|Utf8(values[0])|, 8) + Utf8(values[0]) + Encode(values[1..])
  }

  lemma {:induction false} EncodeSnoc(values: seq<string>, value: string)
    ensures Encode(values + [value]) == Encode(values) + (BigEndian(|Utf8(value)|, 8) + Utf8(value))
  {
    if values == [] {
      assert [value][1..] == [];
    } else {
      assert (values + [value])[1..] == values[1..] + [value];
      EncodeSnoc(values[1..], value);
    }
  }

  lemma EncodeNext(values: seq<string>, i: nat)
    requires i < |values|
    ensures Encode(values[..i + 1]) == Encode(values[..i]) + (BigEndian(|Utf8(values[i])|, 8) + Utf8(values[i]))
    ensures Encodable(values[..i + 1]) <==> Encodable(values[..i]) && |Utf8(values[i])| < Pow256(8)
    ensures |Utf8(values[i])| >= Pow256(8) ==> !Encodable(values)
  {
    var earlier, longer := values[..i], values[..i + 1];
    assert longer == earlier + [values[i]];
    EncodeSnoc(earlier, values[i]);
    assert longer[i] == values[i] && forall j | 0 <= j < i :: longer[j] == earlier[j];
  }

  /** No delimiter ambiguity: different value sequences are hashed from different messages. */
  lemma {:induction false} EncodeInjective(a: seq<string>, b: seq<string>)
    requires Encodable(a) && Encodable(b) && Encode(a) == Encode(b)
    ensures a == b
  {
    if a != [] && b != [] {
      var s := Encode(a);
      var u, v := Utf8(a[0]), Utf8(b[0]);
      assert s[..8] == BigEndian(|u|, 8) && s[..8] == BigEndian(|v|, 8);
      BigEndianInjective(|u|, |v|, 8);
      assert s[8..8 + |u|] == u && s[8..8 + |v|] == v;
      Utf8Injective(a[0], b[0]);
      assert s[8 + |u|..] == Encode(a[1..]) && s[8 + |v|..] == Encode(b[1..]);
      assert forall i | 0 <= i < |a[1..]| :: a[1..][i] == a[i + 1];
      assert forall i | 0 <= i < |b[1..]| :: b[1..][i] == b[i + 1];
      EncodeInjective(a[1..], b[1..]);
      assert a == [a[0]] + a[1..] && b == [b[0]] + b[1..];
    }
  }

  /** `stable_digest`: fails (an overflow in `to_bytes`) only for a value of 2^64 bytes or more. */
  method StableDigest(values: seq<string>) returns (r: Result<Sha256>)
    ensures r.Ok? <==> Encodable(values)
    ensures r.Ok? ==> r.value == Sha256(Encode(values))
  {
    r := Ok(Sha256([]));
    var i := 0;
    while i < |values| && r.Ok?
      invariant 0 <= i <= |values|
      invariant r.Ok? ==> r.value.message == Encode(values[..i]) && Encodable(values[..i])
      invariant r.Err? ==> !Encodable(values)
    {
      EncodeNext(values, i);
      var encoded := Utf8(values[i]);
      r := if |encoded| >= Pow256(8) then Err("length does not fit eight bytes")
           else Ok(Sha256(r.value.message + (BigEndian(|encoded|, 8) + encoded)));
      i := i + 1;
    }
    assert values[..|values|] == values;
  }

  // ----- `PipelineFingerprint.digest`

  datatype Pipeline = Pipeline(
    parser: string,
    restructuring: string,
    enrichment: string,
    chunking: string,
    embedding: string,
    indexing: string,
    dimension: Option<int>,
    layout: Option<string>)

  predicate ValidComponent(component: string) {
    !Blank(component) && |component| <= 512
  }

  /** `PipelineFingerprint.__post_init__`. */
  predicate ValidPipeline(p: Pipeline) {
    && ValidComponent(p.parser) && ValidComponent(p.restructuring) && ValidComponent(p.enrichment)
    && ValidComponent(p.chunking) && ValidComponent(p.embedding) && ValidComponent(p.indexing)
    && (p.dimension.Some? ==> 1 <= p.dimension.value <= 65_536)
    && (p.layout.Some? ==> ValidComponent(p.layout.value))
  }

  function DimensionText(dimension: Option<int>): string {
    if dimension.None? then "None" else if dimension.value < 0 then "-" + Decimal(-dimension.value)
      else Decimal(dimension.value)
  }

  function DigestValues(p: Pipeline): seq<string> {
    var legacy := [p.parser, p.restructuring, p.enrichment, p.chunking, p.embedding, p.indexing];
    if p.dimension.None? && p.layout.None? then legacy
    else if p.layout.None? then legacy + [DimensionText(p.dimension)]
    else legacy + [DimensionText(p.dimension), p.layout.value]
  }

  function PipelineDigest(p: Pipeline): Sha256 {
    Sha256(Encode(DigestValues(p)))
  }

  lemma ShortEncodable(text: string)
    requires |text| <= 512
    ensures |Utf8(text)| < Pow256(8)
  {
    Utf8Length(text);
    assert Pow256(2) == 65536;
    assert Pow256(4) >= Pow256(2) && Pow256(6) >= Pow256(4) && Pow256(8) >= Pow256(6);
  }

  lemma DimensionTextShort(dimension: Option<int>)
    requires dimension.Some? ==> 1 <= dimension.value <= 65_536
    ensures |DimensionText(dimension)| <= 5
  {
    if dimension.Some? {
      var n := dimension.value;
      assert |Decimal(n / 10 / 10 / 10 / 10)| == 1;
      assert |Decimal(n / 10 / 10 / 10)| <= 2;
      assert |Decimal(n / 10 / 10)| <= 3;
      assert |Decimal(n / 10)| <= 4;
    }
  }

  lemma PipelineEncodable(p: Pipeline)
    requires ValidPipeline(p)
    ensures Encodable(DigestValues(p))
  {
    DimensionTextShort(p.dimension);
    var values := DigestValues(p);
    forall i | 0 <= i < |values| ensures |Utf8(values[i])| < Pow256(8) { ShortEncodable(values[i]); }
  }

  /** Two pipelines share a digest only when all eight fields agree, whichever of the three
      digest layouts each of them uses. */
  lemma PipelineDigestInjective(p: Pipeline, q: Pipeline)
    requires ValidPipeline(p) && ValidPipeline(q)
    ensures PipelineDigest(p) == PipelineDigest(q) <==> p == q
  {
    if PipelineDigest(p) == PipelineDigest(q) {
      PipelineEncodable(p);
      PipelineEncodable(q);
      var a, b := DigestValues(p), DigestValues(q);
      EncodeInjective(a, b);
      assert a[0] == b[0] && a[1] == b[1] && a[2] == b[2] && a[3] == b[3] && a[4] == b[4] && a[5] == b[5];
      if |a| > 6 {
        assert a[6] == b[6];
        DimensionTextInjective(p.dimension, q.dimension);
      }
      if |a| > 7 { assert a[7] == b[7]; }
    }
  }

  lemma DimensionTextInjective(m: Option<int>, n: Option<int>)
    requires DimensionText(m) == DimensionText(n)
    requires (m.Some? ==> m.value >= 0) && (n.Some? ==> n.value >= 0)
    ensures m == n
  {
    assert "None"[0] == 'N' && !IsDigit('N');
    if m.Some? && n.Some? { DecimalInjective(m.value, n.value); }
  }
}
