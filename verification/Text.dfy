/** Python string methods the components share: `strip`, `split` and `join`. */
module Text {
  import opened Common

  function LeftStrip(s: string): string {
    if s != [] && IsSpace(s[0]) then LeftStrip(s[1..]) else s
  }

  function RightStrip(s: string): (r: string)
    ensures r <= s
    ensures Blank(s[|r|..])
    ensures r == [] || !IsSpace(r[|r| - 1])
  {
    if s != [] && IsSpace(s[|s| - 1]) then RightStrip(s[..|s| - 1]) else s
  }

  /** The length of the leading run of non-space characters. */
  function WordLength(s: string): (n: nat)
    ensures n <= |s| && (n < |s| ==> IsSpace(s[n]))
    ensures forall i | 0 <= i < n :: !IsSpace(s[i])
    ensures s != [] && !IsSpace(s[0]) ==> n > 0
  {
    if s == [] || IsSpace(s[0]) then 0 else 1 + WordLength(s[1..])
  }

  predicate IsWord(w: string) {
    w != [] && forall i | 0 <= i < |w| :: !IsSpace(w[i])
  }

  /** `s.split()`. */
  function Words(s: string): (words: seq<string>)
    ensures forall i | 0 <= i < |words| :: IsWord(words[i])
    ensures !Blank(s) ==> words != []
  {
    if s == [] then []
    else if IsSpace(s[0]) then
      assert !Blank(s) ==> !Blank(s[1..]) by {
        if Blank(s[1..]) { assert forall i | 1 <= i < |s| :: s[i] == s[1..][i - 1]; }
      }
      Words(s[1..])
    else [s[..WordLength(s)]] + Words(s[WordLength(s)..])
  }

  /** `separator.join(parts)`. */
  function Join(parts: seq<string>, separator: string): (r: string)
    ensures parts == [] ==> r == []
    ensures parts != [] ==> parts[0] <= r
  {
    if parts == [] then []
    else if |parts| == 1 then parts[0]
    else parts[0] + (separator + Join(parts[1..], separator))
  }

  lemma Associates(a: string, b: string, c: string)
    ensures (a + b) + c == a + (b + c)
  {
  }

  lemma JoinFirst(parts: seq<string>, separator: string)
    requires parts != []
    ensures Join(parts, separator) == parts[0] + if |parts| == 1 then [] else separator + Join(parts[1..], separator)
  {
  }

  lemma {:induction false} JoinSnoc(parts: seq<string>, part: string, separator: string)
    requires parts != []
    ensures Join(parts + [part], separator) == Join(parts, separator) + (separator + part)
  {
    if |parts| == 1 {
      assert (parts + [part])[1..] == [part];
    } else {
      assert (parts + [part])[1..] == parts[1..] + [part];
      JoinSnoc(parts[1..], part, separator);
    }
  }

  /** `" ".join(s.split())`. */
  function SingleLine(s: string): (r: string)
    ensures !Blank(s) ==> r != [] && !IsSpace(r[0])
  {
    var words := Words(s);
    if words == [] then [] else
      var r := Join(words, " ");
      assert words[0] <= r;
      assert IsWord(words[0]) && r[0] == words[0][0];
      r
  }

  // ----- what `" ".join(s.split())` does, character by character

  lemma BlankTail(s: string)
    requires Blank(s) && s != []
    ensures Blank(s[1..])
  {
    assert forall i | 0 <= i < |s[1..]| :: s[1..][i] == s[i + 1];
  }

  /** Leading and trailing whitespace dropped, every inner run of whitespace one space. */
  function Squeezed(text: string): string {
    if Blank(text) then []
    else if IsSpace(text[0]) then Squeezed(text[1..])
    else [text[0]] + if |text| > 1 && IsSpace(text[1]) && !Blank(text[1..]) then " " + Squeezed(text[1..])
                     else Squeezed(text[1..])
  }

  lemma BlankWords(text: string)
    requires Blank(text)
    ensures Words(text) == []
  {
    if text != [] {
      assert IsSpace(text[0]);
      BlankTail(text);
      BlankWords(text[1..]);
    }
  }

  lemma SqueezedLetter(text: string)
    requires |text| > 1 && !IsSpace(text[0]) && !IsSpace(text[1])
    ensures Squeezed(text) == [text[0]] + Squeezed(text[1..])
  {
  }

  lemma SqueezedEnd(text: string)
    requires text != [] && !IsSpace(text[0]) && (|text| > 1 ==> IsSpace(text[1]))
    ensures Squeezed(text) == text[..1] + if Blank(text[1..]) then [] else " " + Squeezed(text[1..])
  {
    assert text[..1] == [text[0]] && [text[0]] + [] == [text[0]];
    if Blank(text[1..]) { assert Squeezed(text[1..]) == []; }
  }

  /** A word in front: kept, then one space if more text follows. */
  lemma {:induction false} SqueezedWord(text: string, n: nat)
    requires 0 < n <= |text| && (forall i | 0 <= i < n :: !IsSpace(text[i])) && (n < |text| ==> IsSpace(text[n]))
    ensures Squeezed(text) == text[..n] + if Blank(text[n..]) then [] else " " + Squeezed(text[n..])
  {
    if n == 1 {
      SqueezedEnd(text);
    } else {
      var tail := text[1..];
      assert forall i | 0 <= i < n - 1 :: tail[i] == text[i + 1];
      SqueezedWord(tail, n - 1);
      SqueezedLetter(text);
      ConsSplit(text, n, if Blank(text[n..]) then [] else " " + Squeezed(text[n..]));
    }
  }

  lemma ConsSplit(text: string, n: nat, rest: string)
    requires 0 < n <= |text|
    ensures text[1..][n - 1..] == text[n..]
    ensures [text[0]] + (text[1..][..n - 1] + rest) == text[..n] + rest
  {
    assert text[..n] == [text[0]] + text[1..][..n - 1];
  }

  lemma {:induction false} JoinedWords(text: string)
    ensures Join(Words(text), " ") == Squeezed(text)
    decreases |text|
  {
    if Blank(text) {
      BlankWords(text);
    } else if IsSpace(text[0]) {
      JoinedWords(text[1..]);
    } else {
      var n := WordLength(text);
      SqueezedWord(text, n);
      JoinedWords(text[n..]);
      JoinFirst(Words(text), " ");
      assert Words(text)[1..] == Words(text[n..]);
      if Blank(text[n..]) { BlankWords(text[n..]); }
      assert text[..n] + [] == text[..n];
    }
  }

  lemma SingleLineMeaning(text: string)
    ensures SingleLine(text) == Squeezed(text)
  {
    JoinedWords(text);
  }
}
