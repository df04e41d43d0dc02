/** The release helper that moves the `## [Unreleased]` notes of CHANGELOG.md under a new
    version header. The file is given as its text and the text to write back is
    returned; a refusal (`SystemExit`) is an `Err` carrying its message. */
module BumpChangelog {
  import opened Common
  import opened PyStr
  import Semver
  import Calendar

  const UnreleasedHeader: string := "## [Unreleased]"
  const ReleasePrefix: string := "## ["

  /** `f"CHANGELOG: falta header requerido: {_UNRELEASED_HEADER!r}"`, see `MissingHeaderIsRepr`. */
  const MissingHeaderMessage: string := "CHANGELOG: falta header requerido: '## [Unreleased]'"
  const EmptyUnreleasedMessage: string :=
    "CHANGELOG: la seccion [Unreleased] esta vacia; se rechaza generar un release sin notas.\n"
    + "- Si estas migrando a Release Please: no uses tools/bump_changelog.py.\n"
    + "- Si estas usando el flujo antiguo/manual: agrega notas bajo [Unreleased] y reintenta."
  const BadVersionMessage: string := "Version invalida; esperado X.Y.Z (SemVer basico)"
  const BadDateMessage: string := "Fecha invalida; esperado YYYY-MM-DD"

  function ExistsMessage(version: string): string {
    "CHANGELOG: la version " + Repr(version) + " ya existe"
  }

  // ---------------------------------------------------------------------------
  // `_split_sections`

  predicate IsUnreleasedLine(ln: string) {
    Strip(ln) == UnreleasedHeader
  }

  predicate IsReleaseLine(ln: string) {
    StartsWith(ln, ReleasePrefix)
  }

  /** The text up to and including the Unreleased header line, that section's body, and
      everything from the next `## [` line on. */
  datatype Sections = Sections(prefix: string, body: string, rest: string)

  /** Where the Unreleased body ends: at the next `## [` line, or at the end. */
  function BodyEnd(lines: seq<string>, bodyStart: nat): (r: nat)
    requires bodyStart <= |lines|
    ensures bodyStart <= r <= |lines|
    ensures r < |lines| ==> IsReleaseLine(lines[r])
    ensures forall k | bodyStart <= k < r :: !IsReleaseLine(lines[k])
  {
    var next := FirstWhere(lines, bodyStart, IsReleaseLine);
    if next.Some? then next.value else |lines|
  }

  /** The lines before `bodyStart`, up to `end`, and from `end` on, each joined. */
  function PartsAt(lines: seq<string>, bodyStart: nat, end: nat): Sections
    requires bodyStart <= end <= |lines|
  {
    Sections(Concat(lines[..bodyStart]), Concat(lines[bodyStart..end]), Concat(lines[end..]))
  }

  /** The split of the changelog's lines (`splitlines(keepends=True)`). */
  function SplitLinesAt(lines: seq<string>): (r: Result<Sections, string>) {
    var u := FirstWhere(lines, 0, IsUnreleasedLine);
    if u.None? then Err(MissingHeaderMessage)
    else Ok(PartsAt(lines, u.value + 1, BodyEnd(lines, u.value + 1)))
  }

  function SplitSections(text: string): (r: Result<Sections, string>) {
    SplitLinesAt(SplitLinesKeepEnds(text))
  }

  /** `_split_sections`, with its search loop for the next release header. */
  method SplitSectionsOf(text: string) returns (r: Result<Sections, string>)
    ensures r == SplitSections(text)
  {
    var lines := SplitLinesKeepEnds(text);
    r := SplitLinesLoop(lines);
  }

  method SplitLinesLoop(lines: seq<string>) returns (r: Result<Sections, string>)
    ensures r == SplitLinesAt(lines)
  {
    var u := FirstWhere(lines, 0, IsUnreleasedLine);
    if u.None? {
      return Err(MissingHeaderMessage);
    }
    var bodyStart := u.value + 1;
    var nextHeader := NextReleaseLine(lines, bodyStart);
    if nextHeader.None? {
      WholeTail(lines, bodyStart);
      return Ok(Sections(Concat(lines[..bodyStart]), Concat(lines[bodyStart..]), ""));
    }
    var n := nextHeader.value;
    return Ok(Sections(Concat(lines[..bodyStart]), Concat(lines[bodyStart..n]), Concat(lines[n..])));
  }

  /** The `for i in range(body_start, len(lines))` search for the next `## [` line. */
  method NextReleaseLine(lines: seq<string>, bodyStart: nat) returns (next: Option<nat>)
    requires bodyStart <= |lines|
    ensures next == FirstWhere(lines, bodyStart, IsReleaseLine)
    ensures next.None? ==> BodyEnd(lines, bodyStart) == |lines|
    ensures next.Some? ==> BodyEnd(lines, bodyStart) == next.value
  {
    next := None;
    var i := bodyStart;
    while i < |lines|
      invariant bodyStart <= i <= |lines|
      invariant next.None? ==> FirstWhere(lines, bodyStart, IsReleaseLine) == FirstWhere(lines, i, IsReleaseLine)
      invariant next.Some? ==> next == FirstWhere(lines, bodyStart, IsReleaseLine) && next.value < |lines|
      decreases |lines| - i
    {
      if IsReleaseLine(lines[i]) {
        next := Some(i);
        break;
      }
      i := i + 1;
    }
  }

  /** With no later release header the body runs to the end and the rest is empty. */
  lemma WholeTail(lines: seq<string>, b: nat)
    requires b <= |lines|
    ensures PartsAt(lines, b, |lines|) == Sections(Concat(lines[..b]), Concat(lines[b..]), "")
  {
    assert lines[|lines|..] == [] && lines[b..] == lines[b..|lines|];
  }

  /** The split refuses exactly the lines none of which strips to the Unreleased
      header. */
  lemma MissingHeaderIff(lines: seq<string>)
    ensures SplitLinesAt(lines).Err? <==> forall k | 0 <= k < |lines| :: !IsUnreleasedLine(lines[k])
    ensures SplitLinesAt(lines).Err? ==> SplitLinesAt(lines).error == MissingHeaderMessage
  {
  }

  /** The three parts put back together give the text exactly. */
  lemma SplitReassembles(text: string)
    requires SplitSections(text).Ok?
    ensures var s := SplitSections(text).value;
      s.prefix + s.body + s.rest == text
  {
    LinesReassemble(SplitLinesKeepEnds(text));
  }

  lemma LinesReassemble(lines: seq<string>)
    requires SplitLinesAt(lines).Ok?
    ensures var s := SplitLinesAt(lines).value;
      s.prefix + s.body + s.rest == Concat(lines)
  {
    var bodyStart := FirstWhere(lines, 0, IsUnreleasedLine).value + 1;
    var end := BodyEnd(lines, bodyStart);
    var s := SplitLinesAt(lines).value;
    assert s == PartsAt(lines, bodyStart, end);
    ConcatThree(lines, bodyStart, end);
  }

  lemma ConcatThree(lines: seq<string>, i: nat, j: nat)
    requires i <= j <= |lines|
    ensures Concat(lines[..i]) + Concat(lines[i..j]) + Concat(lines[j..]) == Concat(lines)
  {
    var head := lines[..j];
    assert head[..i] == lines[..i];
    assert head[i..] == lines[i..j];
    ConcatSplit(lines, j);
    ConcatSplit(head, i);
  }

  /** The prefix ends with the first line that strips to the Unreleased header; no line of
      the body starts a release header; the rest is empty or starts with one. */
  lemma SplitShape(text: string)
    requires SplitSections(text).Ok?
    ensures var s := SplitSections(text).value;
      exists header :: EndsWith(s.prefix, header) && IsUnreleasedLine(header)
    ensures var s := SplitSections(text).value;
      s.rest == [] || StartsWith(s.rest, ReleasePrefix)
  {
    LinesShape(SplitLinesKeepEnds(text));
  }

  lemma LinesShape(lines: seq<string>)
    requires SplitLinesAt(lines).Ok?
    ensures var s := SplitLinesAt(lines).value;
      var u := FirstWhere(lines, 0, IsUnreleasedLine).value;
      EndsWith(s.prefix, lines[u]) && IsUnreleasedLine(lines[u])
      && (forall k | 0 <= k < u :: !IsUnreleasedLine(lines[k]))
      && (forall k | u < k < BodyEnd(lines, u + 1) :: !IsReleaseLine(lines[k]))
      && (s.rest == [] || StartsWith(s.rest, ReleasePrefix))
  {
    var u := FirstWhere(lines, 0, IsUnreleasedLine).value;
    var end := BodyEnd(lines, u + 1);
    assert SplitLinesAt(lines).value == PartsAt(lines, u + 1, end);
    PrefixEndsWithLine(lines, u);
    RestStartsWithLine(lines, end);
  }

  lemma PrefixEndsWithLine(lines: seq<string>, u: nat)
    requires u < |lines|
    ensures EndsWith(Concat(lines[..u + 1]), lines[u])
  {
    assert lines[..u + 1] == lines[..u] + [lines[u]];
    ConcatAppend(lines[..u], lines[u]);
  }

  lemma RestStartsWithLine(lines: seq<string>, end: nat)
    requires end <= |lines|
    requires end < |lines| ==> IsReleaseLine(lines[end])
    ensures Concat(lines[end..]) == [] || StartsWith(Concat(lines[end..]), ReleasePrefix)
  {
    if end < |lines| {
      ConcatCons(lines[end..]);
      assert lines[end..][0] == lines[end];
    } else {
      assert lines[end..] == [];
    }
  }

  // ---------------------------------------------------------------------------
  // `bump_changelog`

  function ReleaseHeader(version: string, date: string): string {
    VersionMarker(version) + (" - " + date + "\n")
  }

  function VersionMarker(version: string): string {
    ReleasePrefix + version + "]"
  }

  /** The new text from the split parts and the stripped notes. */
  function Assemble(s: Sections, version: string, date: string): string {
    var moved := RStrip(Strip(s.body)) + "\n";
    Terminated(RStrip(s.prefix) + "\n\n" + ReleaseHeader(version, date) + RStrip(moved) + "\n\n" + LStrip(s.rest))
  }

  /** `if not new_text.endswith("\n"): new_text += "\n"` */
  function Terminated(t: string): string {
    if EndsWith(t, "\n") then t else t + "\n"
  }

  /** `bump_changelog` on the file's text: the text to write, or the refusal. */
  function Bump(text: string, version: string, date: string): (r: Result<string, string>) {
    if Contains(text, VersionMarker(version)) then Err(ExistsMessage(version))
    else match SplitSections(text)
      case Err(m) => Err(m)
      case Ok(s) =>
        if Strip(s.body) == [] then Err(EmptyUnreleasedMessage)
        else Ok(Assemble(s, version, date))
  }

  /** A version already present anywhere in the text is refused before anything else. */
  lemma BumpRefusesExisting(text: string, version: string, date: string)
    requires Contains(text, VersionMarker(version))
    ensures Bump(text, version, date) == Err(ExistsMessage(version))
  {
  }

  /** A blank Unreleased section is refused. */
  lemma BumpRefusesBlank(text: string, version: string, date: string)
    requires !Contains(text, VersionMarker(version))
    requires SplitSections(text).Ok? && Strip(SplitSections(text).value.body) == []
    ensures Bump(text, version, date) == Err(EmptyUnreleasedMessage)
  {
  }

  lemma RStripNewline(t: string)
    requires t == [] || !IsSpace(t[|t| - 1])
    ensures RStrip(t + "\n") == t
  {
    assert (t + "\n")[..|t + "\n"| - 1] == t;
    assert IsSpace('\n');
  }

  /** The new text: the prefix without trailing blanks, one blank line, the release
      header, the stripped notes, one blank line and the rest without leading blanks;
      it always ends in a newline. */
  lemma BumpOutput(text: string, version: string, date: string)
    requires Bump(text, version, date).Ok?
    ensures var s := SplitSections(text).value;
      var t := Bump(text, version, date).value;
      var core := RStrip(s.prefix) + "\n\n" + ReleaseHeader(version, date) + Strip(s.body) + "\n\n" + LStrip(s.rest);
      EndsWith(t, "\n") && (t == core || t == core + "\n")
  {
    var s := SplitSections(text).value;
    var m := Strip(s.body);
    var rm := RStrip(m);
    assert rm == m by {
      if m != [] {
        assert !IsSpace(m[|m| - 1]) by {
          StripShape(s.body);
        }
      }
    }
    RStripNewline(rm);
  }

  /** The new text holds the new version's header, so bumping it to the same version
      again is refused. */
  lemma BumpTwiceRefused(text: string, version: string, date: string, date2: string)
    requires Bump(text, version, date).Ok?
    ensures Contains(Bump(text, version, date).value, VersionMarker(version))
    ensures Bump(Bump(text, version, date).value, version, date2) == Err(ExistsMessage(version))
  {
    AssembledHasMarker(SplitSections(text).value, version, date);
  }

  lemma AssembledHasMarker(s: Sections, version: string, date: string)
    ensures Contains(Assemble(s, version, date), VersionMarker(version))
  {
    var moved := RStrip(Strip(s.body)) + "\n";
    MarkerInAssembled(s.prefix, version, date, RStrip(moved), LStrip(s.rest));
    TerminatedKeeps(RStrip(s.prefix) + "\n\n" + ReleaseHeader(version, date) + RStrip(moved) + "\n\n" + LStrip(s.rest), VersionMarker(version));
  }

  lemma TerminatedKeeps(t: string, sub: string)
    requires Contains(t, sub)
    ensures Contains(Terminated(t), sub)
  {
    if !EndsWith(t, "\n") {
      ContainsPrefix(t + "\n", t);
      ContainsWithin(t, sub, t + "\n");
    }
  }

  lemma MarkerInAssembled(prefix: string, version: string, date: string, notes: string, rest: string)
    ensures Contains(RStrip(prefix) + "\n\n" + ReleaseHeader(version, date) + notes + "\n\n" + rest, VersionMarker(version))
  {
    var a := RStrip(prefix) + "\n\n";
    var m := VersionMarker(version);
    var h := " - " + date + "\n";
    Regroup(a, m, h, notes, "\n\n", rest);
    ContainsMiddle(a, m, h + notes + "\n\n" + rest);
  }

  lemma Regroup(a: string, m: string, h: string, x: string, y: string, z: string)
    ensures a + (m + h) + x + y + z == a + m + (h + x + y + z)
  {
  }

  /** A text contained in a prefix of another is contained in the other. */
  lemma ContainsWithin(s: string, sub: string, t: string)
    requires Contains(s, sub) && StartsWith(t, s)
    ensures Contains(t, sub)
  {
    var i := IndexOf(s, sub).value;
    assert t[i..i + |sub|] == s[i..i + |sub|];
    ContainsAt(t, sub, i);
  }

  // ---------------------------------------------------------------------------
  // `main`

  /** `main` with the version and the date given (the date must fully match
      `\d{4}-\d{2}-\d{2}`; the default date is today's, passed in)
      and the changelog's text: the text written back, or the refusal. */
  function Script(version: string, date: string, text: string): (r: Result<string, string>)
    ensures !Semver.IsDottedTriple(version) ==> r == Err(BadVersionMessage)
    ensures Semver.IsDottedTriple(version) && !Calendar.IsIsoDateText(date) ==> r == Err(BadDateMessage)
    ensures Semver.IsDottedTriple(version) && Calendar.IsIsoDateText(date) ==> r == Bump(text, version, date)
  {
    if !Semver.IsDottedTriple(version) then Err(BadVersionMessage)
    else if !Calendar.IsIsoDateText(date) then Err(BadDateMessage)
    else Bump(text, version, date)
  }

  /** Every version the package can carry is accepted, and so are versions the SemVer
      pattern refuses, such as `01.0.0`: the check is only on the shape. */
  lemma MainAcceptsEveryTriple(t: Semver.Triple)
    ensures Semver.IsDottedTriple(Semver.Format(t))
    ensures Semver.IsDottedTriple("01.0.0") && Semver.ParseSemver("01.0.0").None?
  {
    Semver.FormatIsDottedTriple(t);
    Semver.ParseLeadingZero();
  }
}
