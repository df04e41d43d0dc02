/** The Python `str` operations the core relies on (strip, split, splitlines, replace,
    `in`, slicing, `str(int)`), written out over `seq<char>`. Case mapping is ASCII only. */
module PyStr {
  import opened Common

  // ---------------------------------------------------------------------------
  // Character classes

  /** The characters for which Python's `str.isspace()` holds: those `strip()` and
      `split()` treat as whitespace. */
  predicate IsSpace(c: char) {
    c == ' ' || ('\t' <= c <= '\r') || ('\U{1c}' <= c <= '\U{1f}') || c == '\U{85}'
    || c == '\U{a0}' || c == '\U{1680}' || ('\U{2000}' <= c <= '\U{200a}')
    || c == '\U{2028}' || c == '\U{2029}' || c == '\U{202f}' || c == '\U{205f}'
    || c == '\U{3000}'
  }

  predicate IsDigit(c: char) { '0' <= c <= '9' }

  predicate IsLowerAscii(c: char) { 'a' <= c <= 'z' }

  predicate IsUpperAscii(c: char) { 'A' <= c <= 'Z' }

  /** The ASCII part of the regex class `\w`. */
  predicate IsWordChar(c: char) { IsDigit(c) || IsLowerAscii(c) || IsUpperAscii(c) || c == '_' }

  predicate AllDigits(s: string) { forall i | 0 <= i < |s| :: IsDigit(s[i]) }

  /** The characters Python's `str.splitlines()` breaks at. */
  predicate IsLineBreak(c: char) {
    c == '\n' || c == '\r' || c == '\U{0b}' || c == '\U{0c}' || ('\U{1c}' <= c <= '\U{1e}')
    || c == '\U{85}' || c == '\U{2028}' || c == '\U{2029}'
  }

  // ---------------------------------------------------------------------------
  // strip

  function LStrip(s: string): (r: string)
    ensures |r| <= |s| && r == s[|s| - |r|..]
    ensures r == [] || !IsSpace(r[0])
    ensures forall i | 0 <= i < |s| - |r| :: IsSpace(s[i])
  {
    if s != [] && IsSpace(s[0]) then LStrip(s[1..]) else s
  }

  function RStrip(s: string): (r: string)
    ensures |r| <= |s| && r == s[..|r|]
    ensures r == [] || !IsSpace(r[|r| - 1])
    ensures forall i | |r| <= i < |s| :: IsSpace(s[i])
  {
    if s != [] && IsSpace(s[|s| - 1]) then RStrip(s[..|s| - 1]) else s
  }

  /** Python's `s.strip()`. */
  function Strip(s: string): (r: string)
  {
    RStrip(LStrip(s))
  }

  lemma StripShape(s: string)
    ensures var r := Strip(s);
      r == [] || (!IsSpace(r[0]) && !IsSpace(r[|r| - 1]))
  {
    var l := LStrip(s);
    var r := RStrip(l);
    if r != [] {
      assert r[0] == l[0];
    }
  }

  /** A string with no whitespace at either end is its own strip. */
  lemma StripNoSpace(s: string)
    requires s == [] || (!IsSpace(s[0]) && !IsSpace(s[|s| - 1]))
    ensures Strip(s) == s
  {
  }

  /** One space on each side of an unpadded text is stripped away. */
  lemma StripPadded(t: string)
    requires t != [] && !IsSpace(t[0]) && !IsSpace(t[|t| - 1])
    ensures Strip(" " + t + " ") == t
  {
    var s := " " + t + " ";
    assert s[1..] == t + " ";
    assert LStrip(t + " ") == t + " " by {
      assert (t + " ")[0] == t[0];
    }
    assert LStrip(s) == t + " ";
    assert (t + " ")[..|t|] == t;
    assert RStrip(t + " ") == RStrip(t);
    StripNoSpace(t);
  }

  /** `Strip` yields the empty string exactly for all-whitespace input. */
  lemma {:induction false} StripEmptyIff(s: string)
    ensures Strip(s) == [] <==> forall i | 0 <= i < |s| :: IsSpace(s[i])
  {
    var l := LStrip(s);
    if Strip(s) == [] {
      assert l == [];
    } else {
      var r := Strip(s);
      assert !IsSpace(r[0]);
      var k := |s| - |l|;
      assert s[k] == r[0];
    }
  }

  // ---------------------------------------------------------------------------
  // ASCII case mapping

  function UpperChar(c: char): char {
    if IsLowerAscii(c) then (c as int - 32) as char else c
  }

  function LowerChar(c: char): char {
    if IsUpperAscii(c) then (c as int + 32) as char else c
  }

  /** `str.upper()` restricted to ASCII letters. */
  function Upper(s: string): (r: string)
    ensures |r| == |s|
    ensures forall i | 0 <= i < |s| :: r[i] == UpperChar(s[i])
  {
    if s == [] then [] else [UpperChar(s[0])] + Upper(s[1..])
  }

  /** `str.lower()` restricted to ASCII letters. */
  function Lower(s: string): (r: string)
    ensures |r| == |s|
    ensures forall i | 0 <= i < |s| :: r[i] == LowerChar(s[i])
  {
    if s == [] then [] else [LowerChar(s[0])] + Lower(s[1..])
  }

  /** Lower-casing ignores whether the letters were upper-case first. */
  lemma LowerOfUpper(s: string)
    ensures Lower(Upper(s)) == Lower(s)
  {
    forall i | 0 <= i < |s|
      ensures Lower(Upper(s))[i] == Lower(s)[i]
    {
      assert Upper(s)[i] == UpperChar(s[i]);
    }
  }


  // ---------------------------------------------------------------------------
  // prefixes, substrings, replace

  predicate StartsWith(s: string, p: string) {
    |p| <= |s| && s[..|p|] == p
  }

  predicate EndsWith(s: string, p: string) {
    |p| <= |s| && s[|s| - |p|..] == p
  }

  predicate OccursAt(s: string, sub: string, i: nat) {
    i + |sub| <= |s| && s[i..i + |sub|] == sub
  }

  /** The first index at or after `from` where `sub` occurs in `s`. */
  function IndexFrom(s: string, sub: string, from: nat): (r: Option<nat>)
    requires from <= |s|
    ensures r.Some? ==> from <= r.value && OccursAt(s, sub, r.value)
    ensures forall j | from <= j && (r.None? || j < r.value) :: !OccursAt(s, sub, j)
    decreases |s| - from
  {
    if OccursAt(s, sub, from) then Some(from)
    else if from + |sub| >= |s| then None
    else IndexFrom(s, sub, from + 1)
  }

  /** Python's `s.find(sub)`, as an option. */
  function IndexOf(s: string, sub: string): (r: Option<nat>)
    ensures r.Some? ==> OccursAt(s, sub, r.value)
    ensures forall j: nat | r.None? || j < r.value :: !OccursAt(s, sub, j)
  {
    IndexFrom(s, sub, 0)
  }

  /** Python's `sub in s`. */
  predicate Contains(s: string, sub: string) {
    IndexOf(s, sub).Some?
  }

  lemma ContainsAt(s: string, sub: string, i: nat)
    requires OccursAt(s, sub, i)
    ensures Contains(s, sub)
  {
  }

  lemma ContainsPrefix(s: string, p: string)
    requires StartsWith(s, p)
    ensures Contains(s, p)
  {
    assert OccursAt(s, p, 0);
  }

  /** `sub in a + sub + b` */
  lemma ContainsMiddle(a: string, sub: string, b: string)
    ensures Contains(a + sub + b, sub)
  {
    var s := a + sub + b;
    assert s[|a|..|a| + |sub|] == sub;
    assert OccursAt(s, sub, |a|);
  }

  /** Python's `s.replace(c, repl)` for a one-character `c`. */
  function ReplaceChar(s: string, c: char, repl: string): (r: string)
    ensures c !in s ==> r == s
  {
    if s == [] then [] else (if s[0] == c then repl else [s[0]]) + ReplaceChar(s[1..], c, repl)
  }

  lemma ReplaceCharRemoves(s: string, c: char, repl: string)
    requires c !in repl
    ensures c !in ReplaceChar(s, c, repl)
  {
    if s != [] {
      ReplaceCharRemoves(s[1..], c, repl);
    }
  }

  lemma ReplaceCharKeeps(s: string, c: char, repl: string, d: char)
    requires d != c && d !in repl
    ensures d in ReplaceChar(s, c, repl) <==> d in s
  {
    if s != [] {
      ReplaceCharKeeps(s[1..], c, repl, d);
      assert s == [s[0]] + s[1..];
    }
  }

  lemma ReplaceCharCons(s: string, c: char, repl: string)
    requires s != []
    ensures ReplaceChar(s, c, repl) == (if s[0] == c then repl else [s[0]]) + ReplaceChar(s[1..], c, repl)
  {
  }

  lemma {:induction false} ReplaceCharConcat(a: string, b: string, c: char, repl: string)
    ensures ReplaceChar(a + b, c, repl) == ReplaceChar(a, c, repl) + ReplaceChar(b, c, repl)
    decreases |a|
  {
    if a == [] {
      assert a + b == b;
    } else {
      var ab := a + b;
      var h := if a[0] == c then repl else [a[0]];
      var x, y := ReplaceChar(a[1..], c, repl), ReplaceChar(b, c, repl);
      assert ReplaceChar(ab, c, repl) == h + ReplaceChar(a[1..] + b, c, repl) by {
        assert ab[0] == a[0] && ab[1..] == a[1..] + b;
        ReplaceCharCons(ab, c, repl);
      }
      assert ReplaceChar(a[1..] + b, c, repl) == x + y by {
        ReplaceCharConcat(a[1..], b, c, repl);
      }
      assert ReplaceChar(a, c, repl) == h + x by {
        ReplaceCharCons(a, c, repl);
      }
      assert h + (x + y) == (h + x) + y;
    }
  }

  lemma ReplaceCharOne(a: string, c: char, b: string, repl: string)
    requires c !in a && c !in b
    ensures ReplaceChar(a + [c] + b, c, repl) == a + repl + b
  {
    ReplaceCharConcat(a + [c], b, c, repl);
    ReplaceCharConcat(a, [c], c, repl);
  }

  /** Python's `s.replace(sub, repl, 1)`. */
  function ReplaceFirst(s: string, sub: string, repl: string): string {
    match IndexOf(s, sub)
    case None => s
    case Some(i) => s[..i] + repl + s[i + |sub|..]
  }

  /** Removing the first occurrence of a prefix removes the prefix. */
  lemma ReplaceFirstPrefix(s: string, p: string)
    requires StartsWith(s, p)
    ensures ReplaceFirst(s, p, "") == s[|p|..]
  {
    assert OccursAt(s, p, 0);
  }

  // ---------------------------------------------------------------------------
  // join, split

  function Concat(parts: seq<string>): string {
    if parts == [] then "" else parts[0] + Concat(parts[1..])
  }

  lemma {:induction false} ConcatAppend(parts: seq<string>, last: string)
    ensures Concat(parts + [last]) == Concat(parts) + last
  {
    if parts != [] {
      assert (parts + [last])[1..] == parts[1..] + [last];
      ConcatAppend(parts[1..], last);
    }
  }

  lemma ConcatCons(parts: seq<string>)
    requires parts != []
    ensures Concat(parts) == parts[0] + Concat(parts[1..])
  {
  }

  lemma {:induction false} ConcatSplit(parts: seq<string>, k: nat)
    requires k <= |parts|
    ensures Concat(parts) == Concat(parts[..k]) + Concat(parts[k..])
    decreases k
  {
    if k == 0 {
      assert parts[..0] == [] && parts[0..] == parts;
    } else {
      var front := parts[..k];
      assert front != [] && front[0] == parts[0];
      assert front[1..] == parts[1..][..k - 1];
      assert parts[k..] == parts[1..][k - 1..];
      ConcatSplit(parts[1..], k - 1);
      ConcatCons(parts);
      ConcatCons(front);
    }
  }

  /** Each piece occurs in the text the pieces make up. */
  lemma ContainsPart(parts: seq<string>, k: nat)
    requires k < |parts|
    ensures Contains(Concat(parts), parts[k])
  {
    ConcatSplit(parts, k);
    var rest := parts[k..];
    ConcatCons(rest);
    var a, b := Concat(parts[..k]), Concat(rest[1..]);
    assert rest[0] == parts[k];
    assert Concat(parts) == a + parts[k] + b;
    ContainsMiddle(a, parts[k], b);
  }

  /** Python's `sep.join(parts)`. */
  function Join(parts: seq<string>, sep: string): string {
    if parts == [] then ""
    else if |parts| == 1 then parts[0]
    else parts[0] + sep + Join(parts[1..], sep)
  }

  /** Each part stands whole in the joined text, between what precedes and what follows it. */
  lemma {:induction false} JoinAround(parts: seq<string>, sep: string, k: nat) returns (a: string, b: string)
    requires k < |parts|
    ensures Join(parts, sep) == a + parts[k] + b
    decreases k
  {
    if |parts| == 1 {
      a, b := "", "";
    } else if k == 0 {
      a, b := "", sep + Join(parts[1..], sep);
    } else {
      var a', b' := JoinAround(parts[1..], sep, k - 1);
      a, b := parts[0] + sep + a', b';
    }
  }

  /** The index of the first `c` in `s`. */
  function CharIndex(s: string, c: char): (i: nat)
    requires c in s
    ensures i < |s| && s[i] == c && c !in s[..i]
  {
    if s[0] == c then 0
    else
      var j := CharIndex(s[1..], c);
      assert s[..j + 1] == [s[0]] + s[1..][..j];
      j + 1
  }

  /** Python's `s.split(c)` for a one-character separator: n separators give n + 1 parts. */
  function SplitChar(s: string, c: char): (r: seq<string>)
    ensures |r| >= 1
    ensures forall k | 0 <= k < |r| :: c !in r[k]
    ensures Join(r, [c]) == s
    decreases |s|
  {
    if c !in s then [s]
    else
      var i := CharIndex(s, c);
      var head := s[..i];
      var rest := SplitChar(s[i + 1..], c);
      var r := [head] + rest;
      assert r[0] == head && r[1..] == rest;
      assert Join(r, [c]) == head + [c] + Join(rest, [c]);
      assert s == head + [c] + s[i + 1..];
      r
  }

  lemma CharIndexAfter(a: string, c: char, b: string)
    requires c !in a
    ensures CharIndex(a + [c] + b, c) == |a|
  {
    var s := a + [c] + b;
    assert s[|a|] == c;
    assert s[..|a|] == a;
  }

  /** Splitting `a + [c] + b` at the first `c`, where `a` holds none. */
  lemma SplitCharCons(a: string, c: char, b: string)
    requires c !in a
    ensures SplitChar(a + [c] + b, c) == [a] + SplitChar(b, c)
  {
    var s := a + [c] + b;
    CharIndexAfter(a, c, b);
    assert s[..|a|] == a;
    assert s[|a| + 1..] == b;
  }

  function FirstSpaceFrom(s: string, from: nat): (r: nat)
    requires from <= |s|
    ensures from <= r <= |s| && (r < |s| ==> IsSpace(s[r]))
    ensures forall j | from <= j < r :: !IsSpace(s[j])
    decreases |s| - from
  {
    if from == |s| || IsSpace(s[from]) then from else FirstSpaceFrom(s, from + 1)
  }

  /** A non-empty run of non-whitespace characters. */
  predicate IsWord(w: string) {
    w != [] && forall j | 0 <= j < |w| :: !IsSpace(w[j])
  }

  /** Python's `s.split()`: maximal runs of non-whitespace, in order. */
  function SplitWhitespace(s: string): (r: seq<string>)
    ensures forall k | 0 <= k < |r| :: IsWord(r[k])
    ensures r == [] <==> forall i | 0 <= i < |s| :: IsSpace(s[i])
    decreases |s|
  {
    if s == [] then []
    else if IsSpace(s[0]) then
      var r := SplitWhitespace(s[1..]);
      assert forall i | 1 <= i < |s| :: s[i] == s[1..][i - 1];
      r
    else
      var e := FirstSpaceFrom(s, 0);
      var w := s[..e];
      assert IsWord(w);
      var rest := SplitWhitespace(s[e..]);
      var r := [w] + rest;
      assert forall k | 1 <= k < |r| :: r[k] == rest[k - 1];
      r
  }

  /** The length of the line ending at the start of `s`, if `s` starts with one
      (`"\r\n"` counts as one ending). */
  function BreakLen(s: string): nat {
    if s == [] || !IsLineBreak(s[0]) then 0
    else if s[0] == '\r' && |s| > 1 && s[1] == '\n' then 2
    else 1
  }

  function FirstBreakFrom(s: string, from: nat): (r: nat)
    requires from <= |s|
    ensures from <= r <= |s| && (r < |s| ==> IsLineBreak(s[r]))
    ensures forall j | from <= j < r :: !IsLineBreak(s[j])
    decreases |s| - from
  {
    if from == |s| || IsLineBreak(s[from]) then from else FirstBreakFrom(s, from + 1)
  }

  /** Python's `s.splitlines(keepends=True)`: every piece but possibly the last ends
      with its line ending; the pieces put back together give `s`. */
  function SplitLinesKeepEnds(s: string): (r: seq<string>)
    ensures Concat(r) == s
    ensures forall k | 0 <= k < |r| :: r[k] != []
    decreases |s|
  {
    if s == [] then []
    else
      var i := FirstBreakFrom(s, 0);
      if i == |s| then [s]
      else
        var n := i + BreakLen(s[i..]);
        assert s == s[..n] + s[n..];
        [s[..n]] + SplitLinesKeepEnds(s[n..])
  }

  /** A line without its line ending. */
  function LineBody(line: string): (r: string)
    ensures forall j | 0 <= j < |r| :: !IsLineBreak(r[j])
    ensures |r| <= |line| && r == line[..|r|]
  {
    var i := FirstBreakFrom(line, 0);
    line[..i]
  }

  function MapLineBody(lines: seq<string>): (r: seq<string>)
    ensures |r| == |lines|
    ensures forall k | 0 <= k < |r| :: r[k] == LineBody(lines[k])
  {
    if lines == [] then [] else [LineBody(lines[0])] + MapLineBody(lines[1..])
  }

  /** Python's `s.splitlines()`. */
  function SplitLines(s: string): (r: seq<string>)
    ensures forall k, j | 0 <= k < |r| && 0 <= j < |r[k]| :: !IsLineBreak(r[k][j])
  {
    MapLineBody(SplitLinesKeepEnds(s))
  }

  /** Lines that each end with one `"\n"` and hold no other line break are split back
      exactly into those lines. */
  lemma {:induction false} SplitLinesOfNewlineTerminated(lines: seq<string>)
    requires forall k, j | 0 <= k < |lines| && 0 <= j < |lines[k]| :: !IsLineBreak(lines[k][j])
    ensures SplitLines(Concat(AppendNewline(lines))) == lines
  {
    if lines != [] {
      var l0 := lines[0] + "\n";
      var rest := Concat(AppendNewline(lines[1..]));
      assert AppendNewline(lines)[1..] == AppendNewline(lines[1..]);
      assert Concat(AppendNewline(lines)) == l0 + rest;
      assert forall j | 0 <= j < |lines[0]| :: !IsLineBreak(lines[0][j]);
      SplitLinesKeepEndsCons(lines[0], rest);
      LineBodyNewline(lines[0]);
      SplitLinesOfNewlineTerminated(lines[1..]);
      var ks := SplitLinesKeepEnds(rest);
      assert MapLineBody([l0] + ks) == [LineBody(l0)] + MapLineBody(ks) by {
        assert ([l0] + ks)[1..] == ks;
      }
    }
  }

  /** A line without line breaks, then `"\n"`, is the first piece of `splitlines`. */
  lemma SplitLinesKeepEndsCons(a: string, rest: string)
    requires forall j | 0 <= j < |a| :: !IsLineBreak(a[j])
    ensures SplitLinesKeepEnds(a + "\n" + rest) == [a + "\n"] + SplitLinesKeepEnds(rest)
  {
    var s := a + "\n" + rest;
    FirstBreakNewline(a, rest);
    var i := FirstBreakFrom(s, 0);
    assert s[i..] == "\n" + rest;
    assert BreakLen(s[i..]) == 1;
    assert s[..i + 1] == a + "\n";
    assert s[i + 1..] == rest;
  }

  lemma LineBodyNewline(a: string)
    requires forall j | 0 <= j < |a| :: !IsLineBreak(a[j])
    ensures LineBody(a + "\n") == a
  {
    FirstBreakNewline(a, "");
    assert a + "\n" == a + "\n" + "";
  }

  lemma FirstBreakNewline(a: string, b: string)
    requires forall j | 0 <= j < |a| :: !IsLineBreak(a[j])
    ensures FirstBreakFrom(a + "\n" + b, 0) == |a|
  {
    var s := a + "\n" + b;
    assert forall j | 0 <= j < |a| :: s[j] == a[j];
    assert s[|a|] == '\n';
  }

  function AppendNewline(lines: seq<string>): (r: seq<string>)
    ensures |r| == |lines|
    ensures forall k | 0 <= k < |r| :: r[k] == lines[k] + "\n"
  {
    if lines == [] then [] else [lines[0] + "\n"] + AppendNewline(lines[1..])
  }

  // ---------------------------------------------------------------------------
  // repr

  /** A lower-case hexadecimal digit. */
  function HexChar(d: nat): (c: char)
    requires d < 16
  {
    if d < 10 then ('0' as int + d) as char else ('a' as int + d - 10) as char
  }

  /** The quote `repr` puts around a string: double quotes only when the text holds a
      single quote and no double quote. */
  function ReprQuote(s: string): char {
    if '\'' in s && '"' !in s then '"' else '\''
  }

  /** The characters `str.isprintable()` refuses, which `repr` escapes: the controls and
      the Latin-1 characters U+007F to U+00A0 and U+00AD exactly; beyond Latin-1, the
      space and line and paragraph separators, the format characters of the General
      Punctuation block and U+FEFF, U+FFF0 to U+FFFB, the private-use areas and the
      noncharacters. */
  predicate NonPrintable(c: char) {
    var n := c as int;
    n < 0x20 || (0x7f <= n <= 0xa0) || n == 0xad
    || n == 0x1680 || (0x2000 <= n <= 0x200f) || (0x2028 <= n <= 0x202f)
    || (0x205f <= n <= 0x206f) || n == 0x3000
    || (0xe000 <= n <= 0xf8ff) || (0xfdd0 <= n <= 0xfdef) || n == 0xfeff
    || (0xfff0 <= n <= 0xfffb) || n >= 0xf0000 || PlaneEnd(n)
  }

  /** The last two code points of a plane, U+xFFFE and U+xFFFF. */
  predicate PlaneEnd(n: nat)
    decreases n
  {
    if n < 0x10000 then n >= 0xfffe else PlaneEnd(n - 0x10000)
  }

  /** Text in which `str.isprintable()` holds of every character. */
  predicate Printable(s: string) {
    forall i | 0 <= i < |s| :: !NonPrintable(s[i])
  }

  lemma AsciiPrintable(s: string)
    requires forall i | 0 <= i < |s| :: ' ' <= s[i] < '\U{7f}'
    ensures Printable(s)
  {
  }

  lemma PrintableConcat(a: string, b: string)
    requires Printable(a) && Printable(b)
    ensures Printable(a + b)
  {
    assert forall i | 0 <= i < |a + b| :: (a + b)[i] == if i < |a| then a[i] else b[i - |a|];
  }

  /** `n` as `width` lower-case hexadecimal digits. */
  function HexDigits(n: nat, width: nat): (r: string)
    ensures |r| == width
    ensures forall i | 0 <= i < |r| :: '0' <= r[i] <= 'f'
  {
    if width == 0 then "" else HexDigits(n / 16, width - 1) + [HexChar(n % 16)]
  }

  /** The escape `repr` writes for a character that is not printable and has no short
      form: `\xNN` within Latin-1, `\uNNNN` within the Basic Multilingual Plane,
      `\UNNNNNNNN` beyond it. */
  function HexEscape(n: nat): (r: string)
    ensures |r| >= 4 && r[0] == '\\'
    ensures forall i | 0 <= i < |r| :: ' ' <= r[i] < '\U{7f}'
  {
    if n < 0x100 then "\\x" + HexDigits(n, 2)
    else if n < 0x10000 then "\\u" + HexDigits(n, 4)
    else "\\U" + HexDigits(n, 8)
  }

  /** How `repr` writes one character inside quotes `q`: a backslash before the quote and
      before a backslash, `\t`, `\n` and `\r`, a hexadecimal escape for the other
      characters that are not printable, and every other character as it is. */
  function ReprChar(c: char, q: char): string {
    if c == q || c == '\\' then ['\\', c]
    else if c == '\t' then "\\t"
    else if c == '\n' then "\\n"
    else if c == '\r' then "\\r"
    else if NonPrintable(c) then HexEscape(c as int)
    else [c]
  }

  lemma ReprCharPrintable(c: char, q: char)
    requires !NonPrintable(q)
    ensures Printable(ReprChar(c, q))
  {
  }

  function ReprBody(s: string, q: char): string {
    if s == [] then "" else ReprChar(s[0], q) + ReprBody(s[1..], q)
  }

  /** Python's `repr(s)` (the `!r` conversion) of a string: quoted, with no character
      `str.isprintable()` refuses. */
  function Repr(s: string): (r: string)
    ensures |r| >= 2 && r[0] == ReprQuote(s) && r[|r| - 1] == ReprQuote(s)
    ensures Printable(r)
  {
    ReprBodyPrintable(s, ReprQuote(s));
    [ReprQuote(s)] + ReprBody(s, ReprQuote(s)) + [ReprQuote(s)]
  }

  lemma {:induction false} ReprBodyPrintable(s: string, q: char)
    requires !NonPrintable(q)
    ensures Printable(ReprBody(s, q))
    decreases |s|
  {
    if s != [] {
      ReprBodyPrintable(s[1..], q);
      ReprCharPrintable(s[0], q);
      PrintableConcat(ReprChar(s[0], q), ReprBody(s[1..], q));
    }
  }

  /** A no-break space is escaped as `str.isprintable()` demands: `repr` writes it as
      `\xa0` inside either quote. */
  lemma ReprNoBreakSpace(q: char)
    requires q == '\'' || q == '"'
    ensures ReprChar('\U{a0}', q) == "\\xa0"
  {
    assert HexDigits(0xa0, 2) == "a0" by {
      assert HexChar(0) == '0' && HexChar(10) == 'a';
      assert HexDigits(10, 1) == "a";
    }
  }

  /** A line separator outside Latin-1 comes out as a four-digit escape. */
  lemma ReprLineSeparator(q: char)
    requires q == '\'' || q == '"'
    ensures ReprChar('\U{2028}', q) == "\\u2028"
  {
    assert HexDigits(0x2028, 4) == "2028" by {
      assert HexChar(0) == '0' && HexChar(2) == '2' && HexChar(8) == '8';
      assert HexDigits(2, 1) == "2";
      assert HexDigits(0x20, 2) == "20";
      assert HexDigits(0x202, 3) == "202";
    }
  }

  /** Text of plain printable characters and no quotes is written as it is, between
      single quotes. */
  lemma {:induction false} ReprPlain(s: string)
    requires forall i | 0 <= i < |s| :: ' ' <= s[i] < '\U{7f}' && s[i] != '\'' && s[i] != '"' && s[i] != '\\'
    ensures Repr(s) == "'" + s + "'"
  {
    ReprBodyPlain(s, '\'');
  }

  lemma {:induction false} ReprBodyPlain(s: string, q: char)
    requires forall i | 0 <= i < |s| :: ' ' <= s[i] < '\U{7f}' && s[i] != q && s[i] != '\\'
    ensures ReprBody(s, q) == s
    decreases |s|
  {
    if s != [] {
      ReprBodyPlain(s[1..], q);
      assert s == [s[0]] + s[1..];
    }
  }

  // ---------------------------------------------------------------------------
  // slicing

  /** Python's `s[:n]`. */
  function Take(s: string, n: nat): (r: string)
    ensures |r| == if n <= |s| then n else |s|
    ensures r == s[..|r|]
  {
    if n <= |s| then s[..n] else s
  }

  // ---------------------------------------------------------------------------
  // integers as text

  function DigitChar(d: nat): char
    requires d < 10
  {
    ('0' as int + d) as char
  }

  /** Python's `str(n)` for a natural number. */
  function NatToString(n: nat): (r: string)
    ensures r != [] && AllDigits(r)
    ensures |r| > 1 ==> r[0] != '0'
  {
    if n < 10 then [DigitChar(n)] else NatToString(n / 10) + [DigitChar(n % 10)]
  }

  /** Python's `str(i)` for an integer. */
  function IntToString(i: int): (r: string)
    ensures r != []
  {
    if i < 0 then "-" + NatToString(-i) else NatToString(i)
  }

  /** The value of a string of ASCII digits (Python's `int(s)` on such a string). */
  function DigitsValue(s: string): nat
    requires AllDigits(s)
  {
    if s == [] then 0 else DigitsValue(s[..|s| - 1]) * 10 + (s[|s| - 1] as int - '0' as int)
  }

  lemma {:induction false} DigitsValueOfNatToString(n: nat)
    ensures DigitsValue(NatToString(n)) == n
  {
    if n >= 10 {
      var s := NatToString(n);
      assert s[..|s| - 1] == NatToString(n / 10);
      DigitsValueOfNatToString(n / 10);
    }
  }

  lemma ShiftArith(va: int, p: int, vb: int, d: int)
    ensures (va * p + vb) * 10 + d == va * (10 * p) + (vb * 10 + d)
  {
  }

  /** The last-digit step of `DigitsValue`. */
  lemma DigitsValueLast(s: string)
    requires s != [] && AllDigits(s)
    ensures AllDigits(s[..|s| - 1])
    ensures DigitsValue(s) == DigitsValue(s[..|s| - 1]) * 10 + (s[|s| - 1] as int - '0' as int)
  {
  }

  lemma {:induction false} DigitsValueAppend(a: string, b: string)
    requires AllDigits(a) && AllDigits(b)
    ensures AllDigits(a + b)
    ensures DigitsValue(a + b) == DigitsValue(a) * Pow10(|b|) + DigitsValue(b)
    decreases |b|
  {
    if b != [] {
      var b' := b[..|b| - 1];
      var d := b[|b| - 1] as int - '0' as int;
      assert (a + b)[..|a + b| - 1] == a + b';
      assert (a + b)[|a + b| - 1] == b[|b| - 1];
      DigitsValueAppend(a, b');
      DigitsValueLast(a + b);
      DigitsValueLast(b);
      assert Pow10(|b|) == 10 * Pow10(|b'|);
      ShiftArith(DigitsValue(a), Pow10(|b'|), DigitsValue(b'), d);
    } else {
      assert a + b == a;
    }
  }

  function Pow10(k: nat): (r: nat)
    ensures r >= 1
  {
    if k == 0 then 1 else 10 * Pow10(k - 1)
  }

  // ---------------------------------------------------------------------------
  // paths

  /** `p` without its trailing `/` separators (pathlib drops them when parsing). */
  function TrimSlashes(p: string): (r: string)
    ensures r == [] || r[|r| - 1] != '/'
  {
    if p != [] && p[|p| - 1] == '/' then TrimSlashes(p[..|p| - 1]) else p
  }

  /** Only separators are dropped, and only at the end. */
  lemma {:induction false} TrimSlashesPrefix(p: string)
    ensures var r := TrimSlashes(p);
      |r| <= |p| && r == p[..|r|] && forall i | |r| <= i < |p| :: p[i] == '/'
    decreases |p|
  {
    if p != [] && p[|p| - 1] == '/' {
      var q := p[..|p| - 1];
      TrimSlashesPrefix(q);
      assert q[..|TrimSlashes(q)|] == p[..|TrimSlashes(q)|];
    }
  }

  /** The text after the last `c` of `s`, or all of `s` when it holds none. */
  function AfterLast(s: string, c: char): (r: string)
    ensures c !in r
  {
    if s == [] || s[|s| - 1] == c then [] else AfterLast(s[..|s| - 1], c) + [s[|s| - 1]]
  }

  /** The last component of a `/`-separated path (`pathlib.PurePath.name`). */
  function PathName(p: string): (r: string)
    ensures '/' !in r
  {
    AfterLast(TrimSlashes(p), '/')
  }

  /** What follows the last `c` is exactly the text after it. */
  lemma {:induction false} AfterLastOf(x: string, c: char, n: string)
    requires c !in n
    ensures AfterLast(x + [c] + n, c) == n
    decreases |n|
  {
    var s := x + [c] + n;
    if n != [] {
      var m := n[..|n| - 1];
      assert s[..|s| - 1] == x + [c] + m;
      assert s[|s| - 1] == n[|n| - 1];
      AfterLastOf(x, c, m);
      assert m + [n[|n| - 1]] == n;
    }
  }

  lemma TrimOneSlash(p: string)
    requires p != [] && p[|p| - 1] != '/'
    ensures TrimSlashes(p + "/") == p
  {
    assert (p + "/")[..|p|] == p;
  }

  /** A directory path written with a trailing separator is named by its last
      component: `Path("a/b/").name == "b"`. */
  lemma PathNameOfDir(d: string, n: string)
    requires n != [] && '/' !in n
    ensures PathName(d + "/" + n + "/") == n
  {
    var p := d + ['/'] + n;
    assert p[|p| - 1] == n[|n| - 1];
    TrimOneSlash(p);
    AfterLastOf(d, '/', n);
  }

  /** `pathlib.PurePath.suffix` of a file name: from the last `.` on, unless that dot
      starts or ends the name. */
  function Suffix(name: string): (r: string)
    ensures r == [] || (r[0] == '.' && |r| >= 2 && EndsWith(name, r) && |r| < |name|)
  {
    LastDotSuffix(name, |name|)
  }

  function LastDotSuffix(name: string, i: nat): (r: string)
    requires i <= |name|
    ensures r == [] || (r[0] == '.' && |r| >= 2 && EndsWith(name, r) && |r| < |name|)
    decreases i
  {
    if i == 0 then ""
    else if name[i - 1] == '.' then
      (if 0 < i - 1 < |name| - 1 then name[i - 1..] else "")
    else LastDotSuffix(name, i - 1)
  }
}
