/** The text of a fact: one line, single spaces. */
module FactText {
  import opened Common
  import opened Lines

  /** What splitting a text on white space treats as white space. */
  predicate Blank(c: char) {
    var n := c as int;
    9 <= n <= 13 || 28 <= n <= 32 || n == 133 || n == 160 || n == 5760 || 8192 <= n <= 8202
    || n == 8232 || n == 8233 || n == 8239 || n == 8287 || n == 12288
  }

  /** How many characters before the first blank. */
  function WordLength(s: string): (n: nat)
    ensures n <= |s| && (forall k :: 0 <= k < n ==> !Blank(s[k])) && (n < |s| ==> Blank(s[n]))
  {
    if s == "" || Blank(s[0]) then 0 else 1 + WordLength(s[1..])
  }

  function Words(s: string): seq<string>
    decreases |s|
  {
    if s == "" then []
    else if Blank(s[0]) then Words(s[1..])
    else [s[..WordLength(s)]] + Words(s[WordLength(s)..])
  }

  function Spaced(words: seq<string>): string {
    if words == [] then ""
    else if |words| == 1 then words[0]
    else words[0] + [' '] + Spaced(words[1..])
  }

  /** One line, single spaces: what is stored and compared. */
  function Normalize(content: string): string {
    Spaced(Words(content))
  }

  predicate IsWord(w: string) {
    w != "" && forall k :: 0 <= k < |w| ==> !Blank(w[k])
  }

  lemma {:induction false} WordsAreWords(s: string)
    ensures forall w :: w in Words(s) ==> IsWord(w)
    decreases |s|
  {
    if s != "" {
      if Blank(s[0]) {
        WordsAreWords(s[1..]);
      } else {
        WordsAreWords(s[WordLength(s)..]);
      }
    }
  }

  lemma {:induction false} SpacedIsOneLine(words: seq<string>)
    requires forall w :: w in words ==> IsWord(w)
    ensures OneLine(Spaced(words))
  {
    if |words| > 1 {
      SpacedIsOneLine(words[1..]);
    }
    if words != [] {
      assert IsWord(words[0]);
      assert Blank('\n');
    }
  }

  lemma {:induction false} WordsOfSpaced(words: seq<string>)
    requires forall w :: w in words ==> IsWord(w)
    ensures Words(Spaced(words)) == words
  {
    if words != [] {
      var w, s := words[0], Spaced(words);
      assert IsWord(w);
      if |words| == 1 {
        WordEnds(w, "");
        assert w + "" == w;
      } else {
        var rest := [' '] + Spaced(words[1..]);
        assert s == w + rest;
        WordEnds(w, rest);
        WordsOfSpaced(words[1..]);
        assert rest[1..] == Spaced(words[1..]);
        assert Words(rest) == Words(rest[1..]);
      }
    }
  }

  lemma WordLengthIs(s: string, n: nat)
    requires n <= |s| && (forall k :: 0 <= k < n ==> !Blank(s[k])) && (n < |s| ==> Blank(s[n]))
    ensures WordLength(s) == n
  {
  }

  lemma WordEnds(w: string, rest: string)
    requires IsWord(w) && (rest != "" ==> Blank(rest[0]))
    ensures Words(w + rest) == [w] + Words(rest)
  {
    var s := w + rest;
    assert forall k :: 0 <= k < |w| ==> s[k] == w[k];
    assert |w| < |s| ==> s[|w|] == rest[0];
    WordLengthIs(s, |w|);
    assert s[..|w|] == w && s[|w|..] == rest;
  }

  /** A blank separates words. With OneWord this says what the words of any text are. */
  lemma {:induction false} BlankSeparates(a: string, c: char, b: string)
    requires Blank(c)
    ensures Words(a + [c] + b) == Words(a) + Words(b)
    decreases |a|
  {
    if a == "" {
      assert (a + [c] + b)[1..] == b;
    } else if Blank(a[0]) {
      BlankSeparates(a[1..], c, b);
      assert (a + [c] + b)[1..] == a[1..] + [c] + b;
    } else {
      hide Words, WordLength;
      BlankSeparates(a[WordLength(a)..], c, b);
      SameFirstWord(a, c, b);
    }
  }

  lemma OneWord(w: string)
    requires IsWord(w)
    ensures Words(w) == [w]
  {
    WordEnds(w, "");
    assert w + "" == w;
  }

  lemma SameFirstWord(a: string, c: char, b: string)
    requires a != "" && !Blank(a[0]) && Blank(c)
    ensures var n := WordLength(a);
      Words(a + [c] + b) == [a[..n]] + Words(a[n..] + [c] + b) && Words(a) == [a[..n]] + Words(a[n..])
  {
    var s, n := a + [c] + b, WordLength(a);
    WordLengthIs(s, n);
    assert s[..n] == a[..n] && s[n..] == a[n..] + [c] + b;
  }

  /** The only blanks are single spaces between words. */
  predicate IsNormal(s: string) {
    forall k :: 0 <= k < |s| && Blank(s[k]) ==> s[k] == ' ' && 0 < k < |s| - 1 && !Blank(s[k + 1])
  }

  lemma {:induction false} SpacedIsNormal(words: seq<string>)
    requires forall w :: w in words ==> IsWord(w)
    ensures IsNormal(Spaced(words)) && (words != [] ==> Spaced(words) != "" && !Blank(Spaced(words)[0]))
  {
    if words != [] {
      assert IsWord(words[0]);
      if |words| > 1 {
        SpacedIsNormal(words[1..]);
        NormalBehind(words[0], Spaced(words[1..]));
      }
    }
  }

  lemma NormalBehind(w: string, rest: string)
    requires IsWord(w) && IsNormal(rest) && rest != "" && !Blank(rest[0])
    ensures IsNormal(w + [' '] + rest)
  {
    var s := w + [' '] + rest;
    assert forall k :: 0 <= k < |w| ==> s[k] == w[k];
    assert s[|w| + 1] == rest[0];
    forall k | 0 <= k < |s| && Blank(s[k])
      ensures s[k] == ' ' && 0 < k < |s| - 1 && !Blank(s[k + 1])
    {
      if k > |w| {
        assert s[k] == rest[k - |w| - 1] && (k + 1 < |s| ==> s[k + 1] == rest[k - |w|]);
      }
    }
  }

  /** Normal text is one line of the same words with single spaces between them, and normalizing it again changes nothing. */
  lemma NormalizeIsStable(content: string)
    ensures OneLine(Normalize(content)) && IsNormal(Normalize(content))
    ensures Words(Normalize(content)) == Words(content)
    ensures Normalize(Normalize(content)) == Normalize(content)
  {
    WordsAreWords(content);
    SpacedIsOneLine(Words(content));
    SpacedIsNormal(Words(content));
    WordsOfSpaced(Words(content));
  }

  // The size of a text

  function Utf8Size(s: string): nat {
    if s == "" then 0
    else
      var n := s[0] as int;
      (if n < 0x80 then 1 else if n < 0x800 then 2 else if n < 0x1_0000 then 3 else 4) + Utf8Size(s[1..])
  }

  /** The bytes of one character, as RFC 3629 lays them out. */
  function Utf8(c: char): seq<int> {
    var n := c as int;
    if n < 0x80 then [n]
    else if n < 0x800 then [0xC0 + n / 64, 0x80 + n % 64]
    else if n < 0x1_0000 then [0xE0 + n / 64 / 64, 0x80 + n / 64 % 64, 0x80 + n % 64]
    else [0xF0 + n / 64 / 64 / 64, 0x80 + n / 64 / 64 % 64, 0x80 + n / 64 % 64, 0x80 + n % 64]
  }

  function Utf8All(s: string): seq<int> {
    if s == "" then [] else Utf8(s[0]) + Utf8All(s[1..])
  }

  predicate IsContinuation(b: int) {
    0x80 <= b < 0xC0
  }

  /** The code point at the start of some bytes, and how many of them it takes; none where it is not the shortest form. */
  function Decoded(b: seq<int>): Option<(int, nat)> {
    if |b| >= 1 && 0 <= b[0] < 0x80 then Some((b[0], 1))
    else if |b| >= 2 && 0xC2 <= b[0] < 0xE0 && IsContinuation(b[1]) then Some(((b[0] - 0xC0) * 64 + b[1] - 0x80, 2))
    else if |b| >= 3 && 0xE0 <= b[0] < 0xF0 && IsContinuation(b[1]) && IsContinuation(b[2]) then
      var n := (b[0] - 0xE0) * 4096 + (b[1] - 0x80) * 64 + b[2] - 0x80;
      if n >= 0x800 then Some((n, 3)) else None
    else if |b| >= 4 && 0xF0 <= b[0] < 0xF5 && IsContinuation(b[1]) && IsContinuation(b[2]) && IsContinuation(b[3]) then
      var n := (b[0] - 0xF0) * 262_144 + (b[1] - 0x80) * 4096 + (b[2] - 0x80) * 64 + b[3] - 0x80;
      if n >= 0x1_0000 then Some((n, 4)) else None
    else None
  }

  lemma Sextets(n: int)
    requires 0 <= n < 0x11_0000
    ensures var (a, b) := (n / 64, n / 64 / 64);
      && n == a * 64 + n % 64 && a == b * 64 + a % 64 && b == b / 64 * 64 + b % 64
      && 0 <= n % 64 < 64 && 0 <= a % 64 < 64 && 0 <= b % 64 < 64 && 0 <= b / 64 < 5
  {
  }

  lemma LongIsRead(n: int, b: seq<int>)
    requires 0x1_0000 <= n < 0x11_0000 && |b| >= 4
    requires b[0] == 0xF0 + n / 64 / 64 / 64 && b[1] == 0x80 + n / 64 / 64 % 64
    requires b[2] == 0x80 + n / 64 % 64 && b[3] == 0x80 + n % 64
    ensures Decoded(b) == Some((n, 4))
  {
    Sextets(n);
    var (x, y, z) := (n / 64, n / 64 / 64, n / 64 / 64 / 64);
    assert n == z * 262_144 + y % 64 * 4096 + x % 64 * 64 + n % 64;
  }

  lemma Utf8IsRead(c: char, rest: seq<int>)
    ensures Decoded(Utf8(c) + rest) == Some((c as int, |Utf8(c)|))
  {
    var n, b := c as int, Utf8(c) + rest;
    Sextets(n);
    if n >= 0x1_0000 {
      assert b[0] == Utf8(c)[0] && b[1] == Utf8(c)[1] && b[2] == Utf8(c)[2] && b[3] == Utf8(c)[3];
      hide Decoded;
      LongIsRead(n, b);
    }
  }

  /** The size that is checked is the number of bytes of the text. */
  lemma {:induction false} Utf8SizeExact(s: string)
    ensures Utf8Size(s) == |Utf8All(s)|
    ensures s != "" ==> Decoded(Utf8All(s)) == Some((s[0] as int, Utf8Size(s[..1])))
  {
    if s != "" {
      Utf8SizeExact(s[1..]);
      Utf8IsRead(s[0], Utf8All(s[1..]));
    }
  }
}
