/** String helpers shared by the backend (Python) and the UI (JavaScript)
    parts of the model: whitespace trimming as each language defines it,
    slicing, splitting on a separator, ASCII lower-casing and decimal
    rendering of integers. */
module Text {

  function Min(a: int, b: int): int {
    if a <= b then a else b
  }

  /** The characters for which Python's `str.isspace()` holds: the set
      `str.strip()` removes when called without arguments. */
  const PySpaces: set<char> := {
    ' ', '\t', '\n', '\U{b}', '\U{c}', '\r', '\U{1c}', '\U{1d}', '\U{1e}', '\U{1f}',
    '\U{85}', '\U{a0}', '\U{1680}', '\U{2000}', '\U{2001}', '\U{2002}', '\U{2003}',
    '\U{2004}', '\U{2005}', '\U{2006}', '\U{2007}', '\U{2008}', '\U{2009}', '\U{200a}',
    '\U{2028}', '\U{2029}', '\U{202f}', '\U{205f}', '\U{3000}'
  }

  /** The characters JavaScript's `String.prototype.trim` removes: white
      space and line terminators. */
  const JsSpaces: set<char> := {
    ' ', '\t', '\n', '\U{b}', '\U{c}', '\r', '\U{a0}', '\U{1680}', '\U{2000}', '\U{2001}',
    '\U{2002}', '\U{2003}', '\U{2004}', '\U{2005}', '\U{2006}', '\U{2007}', '\U{2008}',
    '\U{2009}', '\U{200a}', '\U{2028}', '\U{2029}', '\U{202f}', '\U{205f}', '\U{3000}',
    '\U{feff}'
  }

  predicate IsPySpace(c: char) {
    c in PySpaces
  }

  predicate IsJsSpace(c: char) {
    c in JsSpaces
  }

  /** Drops the longest prefix of characters satisfying `p`. */
  function TrimLeft(s: string, p: char -> bool): (r: string)
    ensures |r| <= |s| && r == s[|s| - |r|..]
    ensures r == [] || !p(r[0])
  {
    if s != [] && p(s[0]) then TrimLeft(s[1..], p) else s
  }

  /** Drops the longest suffix of characters satisfying `p`. */
  function TrimRight(s: string, p: char -> bool): (r: string)
    ensures |r| <= |s| && r == s[..|r|]
    ensures r == [] || !p(r[|r| - 1])
  {
    if s != [] && p(s[|s| - 1]) then TrimRight(s[..|s| - 1], p) else s
  }

  function Trim(s: string, p: char -> bool): (r: string)
    ensures r == [] || (!p(r[0]) && !p(r[|r| - 1]))
  {
    TrimRight(TrimLeft(s, p), p)
  }

  lemma {:induction false} TrimLeftDropsOnly(s: string, p: char -> bool)
    ensures forall i :: 0 <= i < |s| - |TrimLeft(s, p)| ==> p(s[i])
  {
    if s != [] && p(s[0]) {
      TrimLeftDropsOnly(s[1..], p);
    }
  }

  lemma {:induction false} TrimRightDropsOnly(s: string, p: char -> bool)
    ensures forall i :: |TrimRight(s, p)| <= i < |s| ==> p(s[i])
  {
    if s != [] && p(s[|s| - 1]) {
      TrimRightDropsOnly(s[..|s| - 1], p);
    }
  }

  /** Trimming keeps one contiguous slice of the input and removes only
      characters satisfying `p`, all of them before or after that slice. */
  lemma TrimSlice(s: string, p: char -> bool) returns (lo: nat, hi: nat)
    ensures lo <= hi <= |s| && Trim(s, p) == s[lo..hi]
    ensures forall i :: 0 <= i < lo ==> p(s[i])
    ensures forall i :: hi <= i < |s| ==> p(s[i])
  {
    var left := TrimLeft(s, p);
    TrimLeftDropsOnly(s, p);
    TrimRightDropsOnly(left, p);
    lo := |s| - |left|;
    hi := lo + |TrimRight(left, p)|;
    forall i | hi <= i < |s| ensures p(s[i]) {
      assert s[i] == left[i - lo];
    }
  }

  /** Trimming leaves nothing exactly when every character is trimmable. */
  lemma TrimEmptyIff(s: string, p: char -> bool)
    ensures Trim(s, p) == [] <==> forall i :: 0 <= i < |s| ==> p(s[i])
  {
    var lo, hi := TrimSlice(s, p);
  }

  /** Trimming cannot introduce a character. */
  lemma TrimKeepsAbsent(s: string, p: char -> bool, c: char)
    requires c !in s
    ensures c !in Trim(s, p)
  {
    var lo, hi := TrimSlice(s, p);
    forall i | 0 <= i < hi - lo ensures Trim(s, p)[i] != c {
      assert Trim(s, p)[i] == s[lo + i];
    }
  }

  /** Trimming twice is trimming once. */
  lemma TrimIdempotent(s: string, p: char -> bool)
    ensures Trim(Trim(s, p), p) == Trim(s, p)
  {
    TrimOfTrimmed(Trim(s, p), p);
  }

  /** Python `s.strip()`. */
  function PyStrip(s: string): string {
    Trim(s, IsPySpace)
  }

  /** JavaScript `s.trim()`. */
  function JsTrim(s: string): string {
    Trim(s, IsJsSpace)
  }

  /** A string whose ends are not trimmable is left as it is. */
  lemma TrimOfTrimmed(s: string, p: char -> bool)
    requires s == [] || (!p(s[0]) && !p(s[|s| - 1]))
    ensures Trim(s, p) == s
  {
  }

  /** Python `s[:n]` for a non-negative `n`. */
  function Prefix<T>(s: seq<T>, n: nat): (r: seq<T>)
    ensures r <= s
    ensures |r| == Min(n, |s|)
  {
    if n <= |s| then s[..n] else s
  }

  predicate StartsWith(s: string, prefix: string) {
    prefix <= s
  }

  predicate EndsWith(s: string, suffix: string) {
    |suffix| <= |s| && s[|s| - |suffix|..] == suffix
  }

  /** Python `s.split(c, 1)` for an `s` that contains `c`: the text before
      the first `c` and the text after it. */
  function SplitOnce(s: string, c: char): (r: (string, string))
    requires c in s
    ensures s == r.0 + [c] + r.1
    ensures c !in r.0
  {
    if s[0] == c then ([], s[1..])
    else
      var rest := SplitOnce(s[1..], c);
      ([s[0]] + rest.0, rest.1)
  }

  /** Any split at a first occurrence of `c` is the one SplitOnce finds. */
  lemma {:induction false} SplitOnceUnique(a: string, b: string, c: char)
    requires c !in a
    ensures c in a + [c] + b
    ensures SplitOnce(a + [c] + b, c) == (a, b)
  {
    var s := a + [c] + b;
    if a != [] {
      assert s[0] == a[0] && s[0] != c;
      assert s[1..] == a[1..] + [c] + b;
      SplitOnceUnique(a[1..], b, c);
      assert [a[0]] + a[1..] == a;
    } else {
      assert s[1..] == b;
    }
  }

  /** Python `s.split(c)` with an explicit one-character separator:
      always at least one piece, none of which contains `c`. */
  function SplitOn(s: string, c: char): (r: seq<string>)
    ensures |r| >= 1
    ensures forall i :: 0 <= i < |r| ==> c !in r[i]
    decreases |s|
  {
    if c !in s then [s]
    else
      var parts := SplitOnce(s, c);
      [parts.0] + SplitOn(parts.1, c)
  }

  /** Python `c.join(pieces)` for a non-empty list of pieces. */
  function Join(pieces: seq<string>, c: char): string
    requires |pieces| >= 1
  {
    if |pieces| == 1 then pieces[0] else pieces[0] + [c] + Join(pieces[1..], c)
  }

  /** Joining separator-free pieces and splitting again gives back the
      pieces. */
  lemma {:induction false} SplitOnJoin(pieces: seq<string>, c: char)
    requires |pieces| >= 1
    requires forall i :: 0 <= i < |pieces| ==> c !in pieces[i]
    ensures SplitOn(Join(pieces, c), c) == pieces
  {
    if |pieces| > 1 {
      var tail := Join(pieces[1..], c);
      SplitOnceUnique(pieces[0], tail, c);
      SplitOnJoin(pieces[1..], c);
    }
  }

  function LowerChar(c: char): char {
    if 'A' <= c <= 'Z' then (c as int + 32) as char else c
  }

  /** `s.lower()` restricted to the ASCII letters. */
  function LowerAscii(s: string): (r: string)
    ensures |r| == |s|
    ensures forall i :: 0 <= i < |s| ==> r[i] == LowerChar(s[i])
  {
    seq(|s|, i requires 0 <= i < |s| => LowerChar(s[i]))
  }

  function Digit(d: nat): char
    requires d < 10
  {
    ('0' as int + d) as char
  }

  /** The decimal rendering of a natural number, as `str(n)` gives it. */
  function NatToString(n: nat): (r: string)
    ensures |r| >= 1
    ensures forall i :: 0 <= i < |r| ==> '0' <= r[i] <= '9'
  {
    if n < 10 then [Digit(n)] else NatToString(n / 10) + [Digit(n % 10)]
  }

  function IntToString(n: int): string {
    if n < 0 then "-" + NatToString(-n) else NatToString(n)
  }
}
