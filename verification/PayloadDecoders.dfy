/** The two decoders of `_bounded_decodings` (06_waf_log_analysis.py): percent escapes and the tokens
    of the Base64 pattern, and a payload on which the search shows a value deeper than it lies. */
module PayloadDecoders {
  import opened Common
  import opened Digest
  import opened Decodings

  // ----- percent escapes

  const PERCENT: Byte := 37

  function HexValue(b: Byte): Option<nat> {
    if 48 <= b <= 57 then Some(b - 48)
    else if 65 <= b <= 70 then Some(b - 55)
    else if 97 <= b <= 102 then Some(b - 87)
    else None
  }

  predicate StartsEscape(v: Bytes) {
    |v| >= 3 && v[0] == PERCENT && HexValue(v[1]).Some? && HexValue(v[2]).Some?
  }

  predicate HasEscape(v: Bytes) {
    exists i | 0 <= i < |v| :: StartsEscape(v[i..])
  }

  /** `unquote_to_bytes`: every escape becomes its byte, everything else stays. */
  function Unquote(v: Bytes): Bytes {
    if v == [] then []
    else if StartsEscape(v) then [16 * HexValue(v[1]).value + HexValue(v[2]).value] + Unquote(v[3..])
    else [v[0]] + Unquote(v[1..])
  }

  /** `repair` is what decoding as UTF-8 with replacement and encoding again makes of a value. */
  function Percent(repair: Bytes -> Bytes, v: Bytes): Option<Bytes> {
    if HasEscape(v) then Some(Unquote(repair(v))) else None
  }

  // ----- Base64

  /** The value of a byte in the alphabet of table 1, section 4 of RFC 4648. */
  function Sextet(b: Byte): (r: Option<nat>)
    ensures r.Some? ==> r.value < 64
  {
    if 65 <= b <= 90 then Some(b - 65)
    else if 97 <= b <= 122 then Some(b - 71)
    else if 48 <= b <= 57 then Some(b + 4)
    else if b == 43 then Some(62)
    else if b == 47 then Some(63)
    else None
  }

  const PAD: Byte := 61

  /** The number of leading alphabet bytes. */
  function RunLength(v: Bytes): (n: nat)
    ensures n <= |v|
  {
    if v == [] || Sextet(v[0]).None? then 0 else 1 + RunLength(v[1..])
  }

  /** The number of leading padding bytes. */
  function PadLength(v: Bytes): (n: nat)
    ensures n <= |v|
  {
    if v == [] || v[0] != PAD then 0 else 1 + PadLength(v[1..])
  }

  /** The value begins with a whole run of sixteen alphabet bytes or more, at most two paddings, then
      neither of both. */
  predicate TokenFirst(v: Bytes) {
    var run := RunLength(v);
    var end := run + PadLength(v[run..]);
    run >= 16 && end <= run + 2 && (end == |v| || Sextet(v[end]).None?)
  }

  /** How far the scan moves on: past a token, else past its run, else by one byte. */
  function Stride(v: Bytes): (n: nat)
    requires v != []
    ensures 0 < n <= |v|
  {
    var run := RunLength(v);
    if TokenFirst(v) then run + PadLength(v[run..]) else if run == 0 then 1 else run
  }

  /** The matches of the token pattern in a value that does not continue a run. */
  function Matches(v: Bytes): seq<Bytes>
    decreases |v|
  {
    if v == [] then []
    else (if TokenFirst(v) then [v[..Stride(v)]] else []) + Matches(v[Stride(v)..])
  }

  /** The three bytes of four sextets. */
  function Group(a: nat, b: nat, c: nat, d: nat): Bytes
    requires a < 64 && b < 64 && c < 64 && d < 64
  {
    [4 * a + b / 16, 16 * (b % 16) + c / 4, 64 * (c % 4) + d]
  }

  predicate AllSextets(v: Bytes, n: nat)
    requires n <= |v|
  {
    forall i | 0 <= i < n :: Sextet(v[i]).Some?
  }

  /** Whole groups of four letters; a last group of two or three gives one or two bytes. */
  function Decode(v: Bytes): Bytes {
    if |v| >= 4 && AllSextets(v, 4) then
      Group(Sextet(v[0]).value, Sextet(v[1]).value, Sextet(v[2]).value, Sextet(v[3]).value) + Decode(v[4..])
    else if |v| >= 3 && AllSextets(v, 3) then
      Group(Sextet(v[0]).value, Sextet(v[1]).value, Sextet(v[2]).value, 0)[..2]
    else if |v| >= 2 && AllSextets(v, 2) then Group(Sextet(v[0]).value, Sextet(v[1]).value, 0, 0)[..1]
    else []
  }

  /** `b64decode(token, validate=True)`: a match of whole groups always decodes. */
  function TokenOf(m: Bytes): Token {
    Token(|m|, if |m| % 4 == 0 then Some(Decode(m)) else None)
  }

  function TokensOf(ms: seq<Bytes>): seq<Token> {
    seq(|ms|, i requires 0 <= i < |ms| => TokenOf(ms[i]))
  }

  function Real(repair: Bytes -> Bytes): Decoders {
    Decoders((v: Bytes) => Percent(repair, v), (v: Bytes) => TokensOf(Matches(v)))
  }

  // ----- what the decoders make of short and plain values

  lemma {:induction false} PlainUnquote(v: Bytes)
    requires PERCENT !in v
    ensures Unquote(v) == v
  {
    if v != [] { PlainUnquote(v[1..]); }
  }

  lemma PlainPercent(repair: Bytes -> Bytes, v: Bytes)
    requires PERCENT !in v
    ensures Percent(repair, v) == None
  {
  }

  /** A value of fewer than sixteen bytes holds no token. */
  lemma {:induction false} ShortMatches(v: Bytes)
    requires |v| < 16
    ensures Matches(v) == []
    decreases |v|
  {
    if v != [] { ShortMatches(v[Stride(v)..]); }
  }

  lemma {:induction false} RunOf(run: Bytes, rest: Bytes)
    requires forall b | b in run :: Sextet(b).Some?
    requires rest == [] || Sextet(rest[0]).None?
    ensures RunLength(run + rest) == |run|
  {
    if run == [] {
      assert run + rest == rest;
    } else {
      assert (run + rest)[1..] == run[1..] + rest;
      RunOf(run[1..], rest);
    }
  }

  const SPACE: Byte := 32

  predicate IsRun(v: Bytes) {
    |v| >= 16 && forall b | b in v :: Sextet(b).Some?
  }

  /** Sixteen alphabet bytes or more, with one padding byte or none. */
  predicate IsWord(w: Bytes) {
    IsRun(w) || (|w| > 16 && IsRun(w[..|w| - 1]) && w[|w| - 1] == PAD)
  }

  lemma PlainWord(w: Bytes, rest: Bytes)
    requires IsRun(w) && (rest == [] || rest[0] == SPACE)
    ensures TokenFirst(w + rest) && Stride(w + rest) == |w|
  {
    RunOf(w, rest);
    assert (w + rest)[|w|..] == rest;
  }

  lemma PaddedWord(run: Bytes, rest: Bytes)
    requires IsRun(run) && (rest == [] || rest[0] == SPACE)
    ensures TokenFirst(run + ([PAD] + rest)) && Stride(run + ([PAD] + rest)) == |run| + 1
  {
    var v := run + ([PAD] + rest);
    RunOf(run, [PAD] + rest);
    assert v[|run|..] == [PAD] + rest && ([PAD] + rest)[1..] == rest;
    assert |v| == |run| + 1 || v[|run| + 1] == rest[0];
  }

  /** A word in front of a space is one match. */
  lemma WordMatches(w: Bytes, rest: Bytes)
    requires IsWord(w) && (rest == [] || rest[0] == SPACE)
    ensures Matches(w + rest) == [w] + Matches(rest)
  {
    if IsRun(w) {
      PlainWord(w, rest);
    } else {
      PaddedWord(w[..|w| - 1], rest);
      assert w + rest == w[..|w| - 1] + ([PAD] + rest);
    }
    FirstMatches(w, rest);
  }

  lemma FirstMatches(m: Bytes, rest: Bytes)
    requires m != [] && TokenFirst(m + rest) && Stride(m + rest) == |m|
    ensures Matches(m + rest) == [m] + Matches(rest)
  {
    assert (m + rest)[..|m|] == m && (m + rest)[|m|..] == rest;
  }

  lemma SpaceMatches(rest: Bytes)
    ensures Matches([SPACE] + rest) == Matches(rest)
  {
    assert ([SPACE] + rest)[1..] == rest;
    assert RunLength([SPACE] + rest) == 0;
  }

  /** The words with one space between any two. */
  function Spaced(words: seq<Bytes>): Bytes {
    if words == [] then [] else if |words| == 1 then words[0] else words[0] + ([SPACE] + Spaced(words[1..]))
  }

  /** Words separated by spaces are all matched, in order. */
  lemma {:induction false} SpacedMatches(words: seq<Bytes>)
    requires forall w | w in words :: IsWord(w)
    ensures Matches(Spaced(words)) == words
  {
    if |words| == 1 {
      WordMatches(words[0], []);
      assert words[0] + [] == words[0];
    } else if words != [] {
      var rest := Spaced(words[1..]);
      SpacedMatches(words[1..]);
      WordMatches(words[0], [SPACE] + rest);
      SpaceMatches(rest);
    }
  }

  lemma {:induction false} SpacedPlain(words: seq<Bytes>)
    requires forall w | w in words :: IsWord(w)
    ensures PERCENT !in Spaced(words) && (words != [] ==> |Spaced(words)| >= 16)
  {
    if words != [] {
      SpacedPlain(words[1..]);
      assert words[0] in words;
      WordPlain(words[0]);
    }
  }

  lemma WordPlain(w: Bytes)
    requires IsWord(w)
    ensures PERCENT !in w && |w| >= 16
  {
    if !IsRun(w) { assert w == w[..|w| - 1] + [PAD]; }
  }

  // ----- the scan finds exactly the matches of the pattern

  predicate Whole(v: Bytes, i: nat, r: nat)
    requires i <= r <= |v|
  {
    forall k | i <= k < r :: Sextet(v[k]).Some?
  }

  predicate Padded(v: Bytes, r: nat, j: nat)
    requires r <= j <= |v|
  {
    forall k | r <= k < j :: v[k] == PAD
  }

  predicate Outside(v: Bytes, k: int) {
    !(0 <= k < |v|) || Sextet(v[k]).None?
  }

  /** The pattern matches `v[i..j]`, the alphabet part ending at `r`. */
  predicate MatchAt(v: Bytes, i: nat, r: nat, j: nat) {
    && i + 16 <= r <= j <= |v| && j <= r + 2 && Outside(v, i - 1) && Whole(v, i, r) && Padded(v, r, j)
    && Outside(v, j) && (j < |v| ==> v[j] != PAD)
  }

  ghost predicate Matched(v: Bytes, m: Bytes) {
    exists i: nat, r: nat, j: nat :: MatchAt(v, i, r, j) && v[i..j] == m
  }

  lemma {:induction false} RunMeaning(v: Bytes)
    ensures Whole(v, 0, RunLength(v)) && Outside(v, RunLength(v))
  {
    if v != [] && Sextet(v[0]).Some? {
      RunMeaning(v[1..]);
      forall k | 0 <= k < RunLength(v) ensures Sextet(v[k]).Some? {
        if k > 0 { assert v[k] == v[1..][k - 1]; }
      }
      if RunLength(v) < |v| { assert v[RunLength(v)] == v[1..][RunLength(v[1..])]; }
    }
  }

  lemma {:induction false} PadMeaning(v: Bytes, r: nat)
    requires r <= |v|
    ensures Padded(v, r, r + PadLength(v[r..]))
    ensures r + PadLength(v[r..]) < |v| ==> v[r + PadLength(v[r..])] != PAD
    decreases |v| - r
  {
    if r < |v| && v[r] == PAD {
      assert v[r..][1..] == v[r + 1..];
      PadMeaning(v, r + 1);
    }
  }

  /** Matches behind a byte outside the alphabet, or in front of one, are those of the rest. */
  lemma MatchShift(v: Bytes, c: nat, i: nat, r: nat, j: nat)
    requires c <= i <= |v| && (Outside(v, c - 1) || i > c)
    ensures MatchAt(v, i, r, j) <==> r >= c && j >= c && MatchAt(v[c..], i - c, r - c, j - c)
    ensures MatchAt(v, i, r, j) ==> v[i..j] == v[c..][i - c..j - c]
  {
    var w := v[c..];
    assert forall k | c <= k < |v| :: w[k - c] == v[k];
    if r >= c && j >= c && MatchAt(w, i - c, r - c, j - c) {
      assert forall k | i <= k < r :: v[k] == w[k - c];
      assert forall k | r <= k < j :: v[k] == w[k - c];
    }
    if MatchAt(v, i, r, j) {
      assert forall k | i - c <= k < r - c :: w[k] == v[k + c];
      assert forall k | r - c <= k < j - c :: w[k] == v[k + c];
    }
  }

  /** No match begins before `c`: the matches are those of the rest. */
  lemma MatchedLater(v: Bytes, c: nat, m: Bytes)
    requires c <= |v| && (Outside(v, c - 1) || Outside(v, c))
    requires forall i: nat, r: nat, j: nat | MatchAt(v, i, r, j) :: i >= c || v[i..j] != m
    ensures Matched(v, m) <==> Matched(v[c..], m)
  {
    if Matched(v, m) {
      var i: nat, r: nat, j: nat :| MatchAt(v, i, r, j) && v[i..j] == m;
      assert Sextet(v[i]).Some?;
      MatchShift(v, c, i, r, j);
    }
    if Matched(v[c..], m) {
      var i: nat, r: nat, j: nat :| MatchAt(v[c..], i, r, j) && v[c..][i..j] == m;
      assert Sextet(v[c..][i]).Some?;
      MatchShift(v, c, i + c, r + c, j + c);
    }
  }

  /** A match that begins within the stride is all of it. */
  lemma FirstMatch(v: Bytes, i: nat, r: nat, j: nat)
    requires v != [] && MatchAt(v, i, r, j) && i < Stride(v)
    ensures i == 0 && j == Stride(v) && TokenFirst(v)
  {
    RunMeaning(v);
    PadMeaning(v, RunLength(v));
    assert Sextet(v[i]).Some? && Outside(v, i - 1);
    FirstRun(v, r, j);
  }

  lemma FirstRun(v: Bytes, r: nat, j: nat)
    requires MatchAt(v, 0, r, j)
    ensures r == RunLength(v) && j == r + PadLength(v[r..])
  {
    var run := RunLength(v);
    RunMeaning(v);
    assert run == |v| || Sextet(v[run]).None?;
    assert r == |v| || v[r] == PAD || Sextet(v[r]).None?;
    PadMeaning(v, r);
    var e := r + PadLength(v[r..]);
    assert (e == |v| || v[e] != PAD) && (j == |v| || v[j] != PAD);
  }

  lemma StrideOutside(v: Bytes)
    requires v != []
    ensures Outside(v, Stride(v) - 1) || Outside(v, Stride(v))
    ensures TokenFirst(v) ==> MatchAt(v, 0, RunLength(v), Stride(v))
  {
    RunMeaning(v);
    PadMeaning(v, RunLength(v));
  }

  lemma StrideMatched(v: Bytes, m: Bytes)
    requires v != []
    ensures Matched(v, m) <==> (TokenFirst(v) && m == v[..Stride(v)]) || Matched(v[Stride(v)..], m)
  {
    StrideOutside(v);
    if TokenFirst(v) && m == v[..Stride(v)] {
      assert MatchAt(v, 0, RunLength(v), Stride(v)) && v[0..Stride(v)] == m;
    } else {
      forall i: nat, r: nat, j: nat | MatchAt(v, i, r, j) ensures i >= Stride(v) || v[i..j] != m {
        if i < Stride(v) { FirstMatch(v, i, r, j); }
      }
      MatchedLater(v, Stride(v), m);
    }
  }

  /** The scan finds exactly the matches of the pattern. */
  lemma {:induction false} MatchesMeaning(v: Bytes, m: Bytes)
    ensures m in Matches(v) <==> Matched(v, m)
    decreases |v|
  {
    if v != [] {
      StrideMatched(v, m);
      MatchesMeaning(v[Stride(v)..], m);
    }
  }

  // ----- a payload whose ninth token is also found in two steps

  function AsciiByte(c: char): Byte {
    if c < 128 as char then c as int else 0
  }

  /** The bytes of a text of ASCII characters. */
  function Ascii(text: string): (r: Bytes)
    ensures |r| == |text| && forall i | 0 <= i < |text| :: r[i] == AsciiByte(text[i])
  {
    seq(|text|, i requires 0 <= i < |text| => AsciiByte(text[i]))
  }

  function Concat(words: seq<string>): string {
    if words == [] then "" else words[0] + Concat(words[1..])
  }

  const ESCAPE_WORDS := ["JTQx", "QkNE", "RUZH", "SElK"]
  const LETTER_WORDS := ["QUJD", "REVG", "R0hJ", "SktM"]
  const ESCAPE_PARTS := ["%41", "BCD", "EFG", "HIJ"]
  const LETTER_PARTS := ["ABC", "DEF", "GHI", "JKL"]

  /** The bytes of `JTQxQkNERUZHSElKS0w`, the Base64 text of `%41BCDEFGHIJKL` less its padding. */
  function EncodedEscape(): Bytes { Ascii(Concat(ESCAPE_WORDS) + "S0w") }

  function Escape(): Bytes { Ascii(Concat(ESCAPE_PARTS) + "KL") }

  /** The bytes of `QUJDREVGR0hJSktM`, the Base64 text of `ABCDEFGHIJKL`. */
  function EncodedLetters(): Bytes { Ascii(Concat(LETTER_WORDS) + "") }

  function Letters(): Bytes { Ascii(Concat(LETTER_PARTS) + "") }

  function Filler(): (r: Bytes)
    ensures IsRun(r) && |r| == 17
  {
    seq(17, _ => 65)
  }

  /** Seven words of seventeen letters, matches of no whole number of groups, between two tokens. */
  function Words(first: Bytes, last: Bytes): (r: seq<Bytes>)
    ensures |r| == 9 && r[0] == first && r[8] == last && forall i | 1 <= i < 8 :: r[i] == Filler()
  {
    [first] + seq(7, _ => Filler()) + [last]
  }

  function Payload(): Bytes {
    Spaced(Words(EncodedEscape() + [PAD], EncodedLetters()))
  }

  /** The first four letters of a token give the next three bytes. */
  lemma DecodeQuad(w: Bytes, rest: Bytes)
    requires |w| == 4 && AllSextets(w, 4)
    ensures Decode(w + rest)
         == Group(Sextet(w[0]).value, Sextet(w[1]).value, Sextet(w[2]).value, Sextet(w[3]).value) + Decode(rest)
  {
    assert (w + rest)[4..] == rest;
    assert forall i | 0 <= i < 4 :: (w + rest)[i] == w[i];
  }

  /** `word` is the encoding of the three letters of `plain`. */
  predicate Encodes(word: string, plain: string) {
    && |word| == 4 && |plain| == 3 && (forall i | 0 <= i < 4 :: Sextet(AsciiByte(word[i])).Some?)
    && var g := Group(Sextet(AsciiByte(word[0])).value, Sextet(AsciiByte(word[1])).value,
                      Sextet(AsciiByte(word[2])).value, Sextet(AsciiByte(word[3])).value);
      g == [AsciiByte(plain[0]), AsciiByte(plain[1]), AsciiByte(plain[2])]
  }

  lemma AsciiConcat(a: string, b: string, rest: Bytes)
    ensures Ascii(a + b) + rest == Ascii(a) + (Ascii(b) + rest)
  {
  }

  lemma DecodeWord(word: string, plain: string, rest: string, tail: string, pads: Bytes)
    requires Encodes(word, plain) && Decode(Ascii(rest) + pads) == Ascii(tail)
    ensures Decode(Ascii(word + rest) + pads) == Ascii(plain + tail)
  {
    DecodeQuad(Ascii(word), Ascii(rest) + pads);
    AsciiConcat(word, rest, pads);
    AsciiConcat(plain, tail, []);
    assert Ascii(plain + tail) + [] == Ascii(plain + tail) && Ascii(tail) + [] == Ascii(tail);
  }

  predicate AllEncode(words: seq<string>, plains: seq<string>) {
    |words| == |plains| && (words == [] || (Encodes(words[0], plains[0]) && AllEncode(words[1..], plains[1..])))
  }

  lemma ConcatFirst(words: seq<string>, rest: string)
    requires words != []
    ensures Concat(words) + rest == words[0] + (Concat(words[1..]) + rest)
  {
  }

  lemma {:induction false} DecodeWords(words: seq<string>, plains: seq<string>, rest: string, tail: string, pads: Bytes)
    requires AllEncode(words, plains)
    requires Decode(Ascii(rest) + pads) == Ascii(tail)
    ensures Decode(Ascii(Concat(words) + rest) + pads) == Ascii(Concat(plains) + tail)
  {
    if words == [] {
      assert Concat(words) + rest == rest && Concat(plains) + tail == tail;
    } else {
      DecodeWords(words[1..], plains[1..], rest, tail, pads);
      DecodeWord(words[0], plains[0], Concat(words[1..]) + rest, Concat(plains[1..]) + tail, pads);
      ConcatFirst(words, rest);
      ConcatFirst(plains, tail);
    }
  }

  lemma {:induction false} WordsRun(words: seq<string>, plains: seq<string>)
    requires AllEncode(words, plains)
    ensures |Concat(words)| == 4 * |words| && forall c | c in Concat(words) :: Sextet(AsciiByte(c)).Some?
  {
    if words != [] { WordsRun(words[1..], plains[1..]); }
  }

  lemma AddWord(word: string, plain: string, words: seq<string>, plains: seq<string>)
    requires Encodes(word, plain) && AllEncode(words, plains)
    ensures AllEncode([word] + words, [plain] + plains)
  {
    assert ([word] + words)[1..] == words && ([plain] + plains)[1..] == plains;
  }

  lemma AddTwo(w: string, p: string, x: string, q: string, words: seq<string>, plains: seq<string>)
    requires Encodes(w, p) && Encodes(x, q) && AllEncode(words, plains)
    ensures AllEncode([w, x] + words, [p, q] + plains)
  {
    AddWord(x, q, words, plains);
    AddWord(w, p, [x] + words, [q] + plains);
    assert [w, x] + words == [w] + ([x] + words) && [p, q] + plains == [p] + ([q] + plains);
  }

  lemma LastLetters()
    ensures AllEncode(["R0hJ", "SktM"], ["GHI", "JKL"])
  {
    AddTwo("R0hJ", "GHI", "SktM", "JKL", [], []);
  }

  lemma LetterWords()
    ensures AllEncode(LETTER_WORDS, LETTER_PARTS)
  {
    LastLetters();
    AddTwo("QUJD", "ABC", "REVG", "DEF", ["R0hJ", "SktM"], ["GHI", "JKL"]);
  }

  lemma LastOfEscape()
    ensures AllEncode(["RUZH", "SElK"], ["EFG", "HIJ"])
  {
    AddTwo("RUZH", "EFG", "SElK", "HIJ", [], []);
  }

  lemma EscapeWords()
    ensures AllEncode(ESCAPE_WORDS, ESCAPE_PARTS)
  {
    LastOfEscape();
    AddTwo("JTQx", "%41", "QkNE", "BCD", ["RUZH", "SElK"], ["EFG", "HIJ"]);
  }

  lemma WordsAreRun(words: seq<string>, plains: seq<string>, rest: string)
    requires AllEncode(words, plains) && |words| >= 4 && forall c | c in rest :: Sextet(AsciiByte(c)).Some?
    ensures IsRun(Ascii(Concat(words) + rest)) && |Ascii(Concat(words) + rest)| == 4 * |words| + |rest|
  {
    WordsRun(words, plains);
  }

  lemma TokenIs(m: Bytes, n: nat, decoded: Bytes)
    requires |m| == n && n % 4 == 0 && Decode(m) == decoded
    ensures TokenOf(m) == Token(n, Some(decoded))
  {
  }

  /** The Base64 text of `plains` and `tail`. */
  lemma WordsToken(words: seq<string>, plains: seq<string>, rest: string, tail: string, pads: Bytes, n: nat)
    requires AllEncode(words, plains) && n % 4 == 0 && |Ascii(Concat(words) + rest)| + |pads| == n
    requires Decode(Ascii(rest) + pads) == Ascii(tail)
    ensures TokenOf(Ascii(Concat(words) + rest) + pads) == Token(n, Some(Ascii(Concat(plains) + tail)))
  {
    DecodeWords(words, plains, rest, tail, pads);
    TokenIs(Ascii(Concat(words) + rest) + pads, n, Ascii(Concat(plains) + tail));
  }

  lemma LettersToken()
    ensures IsRun(EncodedLetters()) && TokenOf(EncodedLetters()) == Token(16, Some(Letters()))
  {
    LetterWords();
    WordsAreRun(LETTER_WORDS, LETTER_PARTS, "");
    WordsToken(LETTER_WORDS, LETTER_PARTS, "", "", [], 16);
    assert EncodedLetters() + [] == EncodedLetters();
  }

  lemma LastGroup()
    ensures Decode(Ascii("S0w") + [PAD]) == Ascii("KL")
  {
    assert Ascii("S0w") + [PAD] == [83, 48, 119, PAD];
  }

  lemma EscapeToken()
    ensures IsWord(EncodedEscape() + [PAD]) && TokenOf(EncodedEscape() + [PAD]) == Token(20, Some(Escape()))
  {
    EscapeWords();
    WordsAreRun(ESCAPE_WORDS, ESCAPE_PARTS, "S0w");
    LastGroup();
    WordsToken(ESCAPE_WORDS, ESCAPE_PARTS, "S0w", "KL", [PAD], 20);
  }

  lemma PayloadMatches()
    ensures Matches(Payload()) == Words(EncodedEscape() + [PAD], EncodedLetters())
    ensures PERCENT !in Payload() && |Payload()| >= 16
  {
    EscapeToken();
    LettersToken();
    AllWords(EncodedEscape() + [PAD], EncodedLetters());
    SpacedMatches(Words(EncodedEscape() + [PAD], EncodedLetters()));
    SpacedPlain(Words(EncodedEscape() + [PAD], EncodedLetters()));
  }

  lemma AllWords(first: Bytes, last: Bytes)
    requires IsWord(first) && IsWord(last)
    ensures forall w | w in Words(first, last) :: IsWord(w)
  {
  }

  lemma FirstEscape(repair: Bytes -> Bytes, high: Byte, low: Byte, rest: Bytes)
    requires HexValue(high).Some? && HexValue(low).Some? && PERCENT !in rest
    requires repair([PERCENT, high, low] + rest) == [PERCENT, high, low] + rest
    ensures Percent(repair, [PERCENT, high, low] + rest)
      == Some([16 * HexValue(high).value + HexValue(low).value] + rest)
  {
    var v := [PERCENT, high, low] + rest;
    assert v[0..] == v && StartsEscape(v);
    assert v[3..] == rest;
    PlainUnquote(rest);
  }

  lemma EscapeBytes() returns (rest: Bytes)
    ensures Escape() == [PERCENT, 52, 49] + rest && Letters() == [65] + rest && PERCENT !in rest
    ensures |Escape()| == 14 && PERCENT !in Letters()
  {
    rest := Letters()[1..];
    assert Concat(ESCAPE_PARTS) + "KL" == "%41BCDEFGHIJKL";
    assert Concat(LETTER_PARTS) + "" == "ABCDEFGHIJKL";
  }

  lemma EscapePercent(repair: Bytes -> Bytes)
    requires repair(Escape()) == Escape()
    ensures Percent(repair, Escape()) == Some(Letters()) && Percent(repair, Letters()) == None
  {
    var rest := EscapeBytes();
    FirstEscape(repair, 52, 49, rest);
    PlainPercent(repair, Letters());
  }

  lemma LateIs(d: Decoders, payload: Bytes, first: Bytes, last: Bytes, m: Bytes, y: Bytes)
    requires d.percent(payload) == None && d.tokens(payload) == TokensOf(Words(first, last))
    requires TokenOf(first) == Token(20, Some(m)) && TokenOf(last) == Token(16, Some(y))
    requires d.percent(m) == Some(y) && d.tokens(m) == [] && d.percent(y) == None && d.tokens(y) == []
    ensures LateToken(d, payload, m, y)
  {
  }

  /** What the decoders make of the payload and of what it decodes to. */
  lemma PayloadIsLate(repair: Bytes -> Bytes)
    requires repair(Escape()) == Escape()
    ensures LateToken(Real(repair), Payload(), Escape(), Letters())
    ensures |Payload()| >= 16 && |Escape()| == 14 && |Letters()| == 12
  {
    PayloadMatches();
    PlainPercent(repair, Payload());
    EscapePercent(repair);
    var rest := EscapeBytes();
    ShortMatches(Escape());
    ShortMatches(Letters());
    EscapeToken();
    LettersToken();
    LateIs(Real(repair), Payload(), EncodedEscape() + [PAD], EncodedLetters(), Escape(), Letters());
  }

  /** The search on this payload sets its flag and shows the letters at depth two, though its ninth
      token decodes to them. */
  method LateLetters(repair: Bytes -> Bytes) returns (previews: seq<Preview>, limit: bool)
    requires repair(Escape()) == Escape()
    ensures limit && Legal(Real(repair), Payload(), Letters())
    ensures exists p :: p in previews && p.value == Letters() && p.depth == 2
  {
    PayloadIsLate(repair);
    previews, limit := LateTokenSearch(Real(repair), Payload(), Escape(), Letters());
  }
}
