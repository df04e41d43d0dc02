/** The `X.Y.Z` core of Semantic Versioning 2.0.0 (item 2): three numeric identifiers
    separated by dots, each `0` or without a leading zero. The run contract and the
    package version compile the same pattern, so one parser models both. */
module Semver {
  import opened Common
  import opened PyStr

  datatype Triple = Triple(major: nat, minor: nat, patch: nat)

  /** `0|[1-9]\d*` */
  predicate IsNumericIdent(s: string) {
    s == "0" || (s != [] && AllDigits(s) && s[0] != '0')
  }

  /** The text `"{major}.{minor}.{patch}"`. */
  function Format(t: Triple): string {
    NatToString(t.major) + "." + NatToString(t.minor) + "." + NatToString(t.patch)
  }

  /** The text a pattern anchored with `$` must match in full: Python's `$` also matches
      just before one final `"\n"`. */
  function DollarBody(v: string): (r: string)
    ensures r == v || v == r + "\n"
  {
    if v != [] && v[|v| - 1] == '\n' then v[..|v| - 1] else v
  }

  /** Three non-empty runs of digits separated by dots, as `\d+\.\d+\.\d+` matches
      in full (leading zeros allowed). */
  predicate IsDottedTriple(v: string) {
    var parts := SplitChar(v, '.');
    |parts| == 3 && forall k | 0 <= k < 3 :: parts[k] != [] && AllDigits(parts[k])
  }

  /** `_SEMVER_RE.match(v)` with the three groups read as integers, or `None` when the
      pattern does not match. */
  function ParseSemver(v: string): (r: Option<Triple>)
  {
    var parts := SplitChar(DollarBody(v), '.');
    if |parts| == 3 && IsNumericIdent(parts[0]) && IsNumericIdent(parts[1]) && IsNumericIdent(parts[2])
    then Some(Triple(DigitsValue(parts[0]), DigitsValue(parts[1]), DigitsValue(parts[2])))
    else None
  }

  // ---------------------------------------------------------------------------
  // Lemmas

  lemma NatToStringIsNumericIdent(n: nat)
    ensures IsNumericIdent(NatToString(n))
  {
  }

  lemma {:induction false} DigitsValuePositive(s: string)
    requires s != [] && AllDigits(s) && s[0] != '0'
    ensures DigitsValue(s) >= 1
    decreases |s|
  {
    if |s| > 1 {
      DigitsValuePositive(s[..|s| - 1]);
    }
  }

  /** A numeric identifier is the decimal text of its value. */
  lemma {:induction false} NatToStringOfDigitsValue(s: string)
    requires IsNumericIdent(s)
    ensures NatToString(DigitsValue(s)) == s
    decreases |s|
  {
    if |s| > 1 {
      var p := s[..|s| - 1];
      var d := s[|s| - 1] as int - '0' as int;
      assert p[0] == s[0];
      DigitsValuePositive(p);
      NatToStringOfDigitsValue(p);
      var n := DigitsValue(s);
      assert n == DigitsValue(p) * 10 + d;
      assert n / 10 == DigitsValue(p) && n % 10 == d;
      assert DigitChar(d) == s[|s| - 1];
      assert s == p + [s[|s| - 1]];
    }
  }

  lemma SplitThree(a: string, b: string, c: string)
    requires '.' !in a && '.' !in b && '.' !in c
    ensures SplitChar(a + "." + b + "." + c, '.') == [a, b, c]
  {
    assert a + "." + b + "." + c == a + ['.'] + (b + ['.'] + c);
    SplitCharCons(a, '.', b + ['.'] + c);
    SplitCharCons(b, '.', c);
  }

  lemma DigitsHaveNoDot(s: string)
    requires AllDigits(s)
    ensures '.' !in s
  {
  }

  /** Every triple is accepted back from its text, with or without one final newline. */
  lemma ParseFormat(t: Triple)
    ensures ParseSemver(Format(t)) == Some(t)
    ensures ParseSemver(Format(t) + "\n") == Some(t)
  {
    var a, b, c := NatToString(t.major), NatToString(t.minor), NatToString(t.patch);
    DigitsHaveNoDot(a);
    DigitsHaveNoDot(b);
    DigitsHaveNoDot(c);
    assert c[|c| - 1] != '\n' by {
      assert IsDigit(c[|c| - 1]);
    }
    var f := Format(t);
    assert f[|f| - 1] == c[|c| - 1];
    assert DollarBody(f) == f;
    assert DollarBody(f + "\n") == f by {
      assert (f + "\n")[..|f + "\n"| - 1] == f;
    }
    SplitThree(a, b, c);
    DigitsValueOfNatToString(t.major);
    DigitsValueOfNatToString(t.minor);
    DigitsValueOfNatToString(t.patch);
  }

  /** Only the text of a triple, possibly followed by one newline, is accepted. */
  lemma ParseSound(v: string)
    requires ParseSemver(v).Some?
    ensures var t := ParseSemver(v).value;
      v == Format(t) || v == Format(t) + "\n"
  {
    var body := DollarBody(v);
    var parts := SplitChar(body, '.');
    var t := ParseSemver(v).value;
    NatToStringOfDigitsValue(parts[0]);
    NatToStringOfDigitsValue(parts[1]);
    NatToStringOfDigitsValue(parts[2]);
    JoinThree(parts, ".");
    assert body == Format(t);
  }

  lemma JoinThree(parts: seq<string>, sep: string)
    requires |parts| == 3
    ensures Join(parts, sep) == parts[0] + sep + parts[1] + sep + parts[2]
  {
    assert parts[1..][1..] == [parts[2]];
    assert Join(parts[1..], sep) == parts[1] + sep + parts[2];
  }

  /** The parser accepts exactly the texts of triples, with an optional final newline. */
  lemma ParseIff(v: string)
    ensures ParseSemver(v).Some? <==> exists t: Triple :: v == Format(t) || v == Format(t) + "\n"
  {
    if ParseSemver(v).Some? {
      ParseSound(v);
    } else if exists t: Triple :: v == Format(t) || v == Format(t) + "\n" {
      var t: Triple :| v == Format(t) || v == Format(t) + "\n";
      ParseFormat(t);
      assert false;
    }
  }

  /** `"1.0.0"`, the run contract's version, reads as (1, 0, 0). */
  lemma ParseSchemaVersion()
    ensures ParseSemver("1.0.0") == Some(Triple(1, 0, 0))
  {
    assert NatToString(1) == "1" && NatToString(0) == "0";
    assert Format(Triple(1, 0, 0)) == "1.0.0";
    ParseFormat(Triple(1, 0, 0));
  }

  /** A part with a leading zero is refused, though the text still has the
      dotted-digits shape. */
  lemma LeadingZeroRefused(a: string, b: string, c: string)
    requires AllDigits(a) && AllDigits(b) && AllDigits(c)
    requires |a| > 1 && a[0] == '0' && b != [] && c != []
    ensures ParseSemver(a + "." + b + "." + c) == None
    ensures IsDottedTriple(a + "." + b + "." + c)
  {
    var v := a + "." + b + "." + c;
    DigitsHaveNoDot(a);
    DigitsHaveNoDot(b);
    DigitsHaveNoDot(c);
    assert v[|v| - 1] == c[|c| - 1];
    assert IsDigit(c[|c| - 1]);
    assert DollarBody(v) == v;
    assert !IsNumericIdent(a);
    SplitThree(a, b, c);
  }

  /** `"01.0.0"` is refused. */
  lemma ParseLeadingZero()
    ensures ParseSemver("01.0.0") == None
    ensures IsDottedTriple("01.0.0")
  {
    assert "01.0.0" == "01" + "." + "0" + "." + "0";
    LeadingZeroRefused("01", "0", "0");
  }

  /** The text of every triple has the dotted-digits shape. */
  lemma FormatIsDottedTriple(t: Triple)
    ensures IsDottedTriple(Format(t))
  {
    var a, b, c := NatToString(t.major), NatToString(t.minor), NatToString(t.patch);
    DigitsHaveNoDot(a);
    DigitsHaveNoDot(b);
    DigitsHaveNoDot(c);
    SplitThree(a, b, c);
  }
}
