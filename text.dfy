/** The Python string primitives the core relies on, over `seq<char>`:
    `str.isspace` / `\s`, `\d`, `str.splitlines`, `strip`/`lstrip`/`rstrip`
    (with and without an explicit character set), `str.join`, `str.lower`,
    `startswith` and slicing with a non-negative bound. */
module Text {

  /** The characters for which Python's `str.isspace()` holds. The same
      characters are what `\s` matches in a `str` pattern and what a
      bare `strip()` removes. */
  predicate IsSpace(c: char) {
    || '\t' <= c <= '\r'
    || '\U{001C}' <= c <= ' '
    || c == '\U{0085}' || c == '\U{00A0}' || c == '\U{1680}'
    || '\U{2000}' <= c <= '\U{200A}'
    || c == '\U{2028}' || c == '\U{2029}' || c == '\U{202F}' || c == '\U{205F}'
    || c == '\U{3000}'
  }

  /** The line boundaries of `str.splitlines()` (`\r\n` counts as one). */
  predicate IsLineBreak(c: char) {
    || '\n' <= c <= '\r'
    || '\U{001C}' <= c <= '\U{001E}'
    || c == '\U{0085}' || c == '\U{2028}' || c == '\U{2029}'
  }

  /** What `\d` matches: ASCII and full-width decimal digits. */
  predicate IsDigit(c: char) {
    '0' <= c <= '9' || '０' <= c <= '９'
  }

  predicate NoLineBreak(s: string) {
    forall k :: 0 <= k < |s| ==> !IsLineBreak(s[k])
  }

  /** The end of the longest run of characters satisfying `p` that starts at `i`. */
  function RunEnd(s: string, i: nat, p: char -> bool): (r: nat)
    requires i <= |s|
    ensures i <= r <= |s|
    ensures forall k :: i <= k < r ==> p(s[k])
    ensures r == |s| || !p(s[r])
    decreases |s| - i
  {
    if i < |s| && p(s[i]) then RunEnd(s, i + 1, p) else i
  }

  function SpaceEnd(s: string, i: nat): (r: nat)
    requires i <= |s|
    ensures i <= r <= |s|
    ensures forall k :: i <= k < r ==> IsSpace(s[k])
    ensures r == |s| || !IsSpace(s[r])
  {
    RunEnd(s, i, IsSpace)
  }

  function DigitEnd(s: string, i: nat): (r: nat)
    requires i <= |s|
    ensures i <= r <= |s|
    ensures forall k :: i <= k < r ==> IsDigit(s[k])
    ensures r == |s| || !IsDigit(s[r])
  {
    RunEnd(s, i, IsDigit)
  }

  /** `s.lstrip(chars)`, the characters to remove given by `drop`. */
  function LStrip(s: string, drop: char -> bool): (r: string)
    ensures |r| <= |s| && r == s[|s| - |r|..]
    ensures forall k :: 0 <= k < |s| - |r| ==> drop(s[k])
    ensures r == [] || !drop(r[0])
    decreases |s|
  {
    if s != [] && drop(s[0]) then LStrip(s[1..], drop) else s
  }

  /** `lstrip` removes exactly a leading run of dropped characters. */
  lemma {:induction false} LStripPrefix(p: string, s: string, drop: char -> bool)
    requires forall k :: 0 <= k < |p| ==> drop(p[k])
    requires s == [] || !drop(s[0])
    ensures LStrip(p + s, drop) == s
    decreases |p|
  {
    if p == [] {
      assert p + s == s;
    } else {
      assert (p + s)[0] == p[0];
      assert (p + s)[1..] == p[1..] + s;
      LStripPrefix(p[1..], s, drop);
    }
  }

  /** `s.rstrip(chars)`, the characters to remove given by `drop`. */
  function RStrip(s: string, drop: char -> bool): (r: string)
    ensures |r| <= |s| && r == s[..|r|]
    ensures forall k :: |r| <= k < |s| ==> drop(s[k])
    ensures r == [] || !drop(r[|r| - 1])
    decreases |s|
  {
    if s != [] && drop(s[|s| - 1]) then RStrip(s[..|s| - 1], drop) else s
  }

  /** `rstrip` removes exactly a trailing run of dropped characters. */
  lemma {:induction false} RStripSuffix(s: string, p: string, drop: char -> bool)
    requires forall k :: 0 <= k < |p| ==> drop(p[k])
    requires s == [] || !drop(s[|s| - 1])
    ensures RStrip(s + p, drop) == s
    decreases |p|
  {
    if p == [] {
      assert s + p == s;
    } else {
      assert (s + p)[|s + p| - 1] == p[|p| - 1];
      assert (s + p)[..|s + p| - 1] == s + p[..|p| - 1];
      RStripSuffix(s, p[..|p| - 1], drop);
    }
  }

  /** `s.strip(chars)`. */
  function StripBy(s: string, drop: char -> bool): (r: string)
    ensures |r| <= |s|
    ensures r == [] || (!drop(r[0]) && !drop(r[|r| - 1]))
  {
    RStrip(LStrip(s, drop), drop)
  }

  /** `s.strip()`. */
  function Strip(s: string): (r: string)
    ensures |r| <= |s|
    ensures r == [] || (!IsSpace(r[0]) && !IsSpace(r[|r| - 1]))
  {
    StripBy(s, IsSpace)
  }

  /** A string with no whitespace at either end is left alone by `strip()`. */
  lemma StripStripped(s: string)
    requires s == [] || (!IsSpace(s[0]) && !IsSpace(s[|s| - 1]))
    ensures Strip(s) == s
  {
    assert LStrip(s, IsSpace) == s;
    assert RStrip(s, IsSpace) == s;
  }

  /** `strip()` keeps a string whose last character is not whitespace
      non-empty. */
  lemma StripKeepsLast(s: string)
    requires s != [] && !IsSpace(s[|s| - 1])
    ensures Strip(s) != [] && Strip(s)[|Strip(s)| - 1] == s[|s| - 1]
  {
    var l := LStrip(s, IsSpace);
    assert l != [] && l[|l| - 1] == s[|s| - 1];
    assert RStrip(l, IsSpace) == l;
  }

  /** The length of the first line of `s`: the index of its first line break, or `|s|`. */
  function LineEnd(s: string, i: nat): (r: nat)
    requires i <= |s|
    ensures i <= r <= |s|
    ensures forall k :: i <= k < r ==> !IsLineBreak(s[k])
    ensures r == |s| || IsLineBreak(s[r])
    decreases |s| - i
  {
    if i < |s| && !IsLineBreak(s[i]) then LineEnd(s, i + 1) else i
  }

  /** `s.splitlines()`: the lines of `s` without their line boundaries; a
      boundary at the very end does not open a further, empty line. */
  function SplitLines(s: string): (lines: seq<string>)
    ensures forall j :: 0 <= j < |lines| ==> NoLineBreak(lines[j])
    ensures (lines == []) == (s == [])
    decreases |s|
  {
    if s == [] then []
    else
      var i := LineEnd(s, 0);
      if i == |s| then [s]
      else
        var w := if s[i] == '\r' && i + 1 < |s| && s[i + 1] == '\n' then 2 else 1;
        [s[..i]] + SplitLines(s[i + w..])
  }

  /** `sep.join(xs)`. */
  function Join(xs: seq<string>, sep: string): string
  {
    if |xs| == 0 then ""
    else if |xs| == 1 then xs[0]
    else xs[0] + sep + Join(xs[1..], sep)
  }

  lemma JoinFirst(xs: seq<string>, sep: string)
    requires xs != [] && xs[0] != []
    ensures Join(xs, sep) != [] && Join(xs, sep)[0] == xs[0][0]
  {
  }

  lemma {:induction false} JoinLast(xs: seq<string>, sep: string)
    requires xs != [] && xs[|xs| - 1] != []
    ensures var s := Join(xs, sep); s != [] && s[|s| - 1] == xs[|xs| - 1][|xs[|xs| - 1]| - 1]
    decreases |xs|
  {
    if |xs| > 1 {
      assert xs[1..][|xs[1..]| - 1] == xs[|xs| - 1];
      JoinLast(xs[1..], sep);
    }
  }

  /** Joining empty strings with "\n" leaves only line breaks. */
  lemma {:induction false} JoinEmpty(xs: seq<string>)
    requires forall j :: 0 <= j < |xs| ==> xs[j] == []
    ensures forall k :: 0 <= k < |Join(xs, "\n")| ==> Join(xs, "\n")[k] == '\n'
    decreases |xs|
  {
    if |xs| > 1 {
      JoinEmpty(xs[1..]);
      assert Join(xs, "\n") == "\n" + Join(xs[1..], "\n");
    }
  }

  /** `strip()` of a string made only of whitespace is empty. */
  lemma StripBlank(s: string)
    requires forall k :: 0 <= k < |s| ==> IsSpace(s[k])
    ensures Strip(s) == []
  {
  }

  /** Joining lines with "\n" and splitting the result again gives the lines
      back, as long as no line holds a boundary of its own and the last line
      is not empty (a final empty line leaves only a trailing "\n", which
      `splitlines` does not count as a line). */
  lemma {:induction false} SplitJoin(xs: seq<string>)
    requires forall j :: 0 <= j < |xs| ==> NoLineBreak(xs[j])
    requires xs == [] || xs[|xs| - 1] != []
    ensures SplitLines(Join(xs, "\n")) == xs
  {
    if |xs| == 1 {
      assert LineEnd(xs[0], 0) == |xs[0]|;
    } else if |xs| > 1 {
      var s := Join(xs, "\n");
      var x := xs[0];
      assert s == x + "\n" + Join(xs[1..], "\n");
      LineEndAt(s, x);
      assert s[|x| + 1..] == Join(xs[1..], "\n");
      assert s[..|x|] == x;
      SplitJoin(xs[1..]);
    }
  }

  lemma LineEndAt(s: string, x: string)
    requires NoLineBreak(x) && |x| < |s| && s[..|x|] == x && s[|x|] == '\n'
    ensures LineEnd(s, 0) == |x|
  {
    assert forall k :: 0 <= k < |x| ==> s[k] == x[k];
  }

  /** Python's `s[:n]` for `n >= 0`. */
  function Take<T>(s: seq<T>, n: nat): (r: seq<T>)
    ensures |r| == if n < |s| then n else |s|
    ensures r == s[..|r|]
  {
    if n < |s| then s[..n] else s
  }

  /** Python's `s[-n:]` for `n > 0`. */
  function TakeLast(s: string, n: nat): (r: string)
    ensures |r| == if n < |s| then n else |s|
    ensures r == s[|s| - |r|..]
  {
    if n < |s| then s[|s| - n..] else s
  }

  predicate StartsWith(s: string, p: string) {
    |p| <= |s| && s[..|p|] == p
  }

  /** `str.lower()` for ASCII and full-width Latin capitals, and for the
      Kelvin sign, which Python lower-cases to an ASCII 'k'. */
  function LowerChar(c: char): char {
    if 'A' <= c <= 'Z' then (c as int + 32) as char
    else if 'Ａ' <= c <= 'Ｚ' then (c as int + 32) as char
    else if c == '\U{212A}' then 'k'
    else c
  }

  function Lower(s: string): (r: string)
    ensures |r| == |s|
    ensures forall k :: 0 <= k < |s| ==> r[k] == LowerChar(s[k])
  {
    seq(|s|, k requires 0 <= k < |s| => LowerChar(s[k]))
  }

  /** Decimal notation of a natural number, as `str(n)` writes it. */
  function NatToString(n: nat): (r: string)
    ensures r != []
    ensures forall k :: 0 <= k < |r| ==> '0' <= r[k] <= '9'
  {
    if n < 10 then [('0' as int + n) as char]
    else NatToString(n / 10) + [('0' as int + n % 10) as char]
  }
}
