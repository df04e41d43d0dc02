/** The supply-chain gate run in CI: it reads the ignore file (one vulnerability id per
    line, with optional inline comments and an `expires` date), refuses to go on when an
    ignore has expired, and otherwise runs `pip-audit` with one `--ignore-vuln` per entry.
    The file's existence and text, today's date and the audit's exit status are inputs. */
module PipAuditGate {
  import opened Common
  import opened PyStr
  import opened Calendar

  // ---------------------------------------------------------------------------
  // The `expires` pattern: `\bexpires\s*[:=]\s*(\d{4}-\d{2}-\d{2})\b`, ignoring case

  /** The first index at or after `j` that is not whitespace (or the end). */
  function SkipSpaces(s: string, j: nat): (r: nat)
    requires j <= |s|
    ensures j <= r <= |s|
    ensures forall k | j <= k < r :: IsSpace(s[k])
    ensures r == |s| || !IsSpace(s[r])
    decreases |s| - j
  {
    if j == |s| || !IsSpace(s[j]) then j else SkipSpaces(s, j + 1)
  }

  /** A run of whitespace ending at a non-space (or the end) is skipped exactly. */
  lemma {:induction false} SkipSpacesRun(s: string, j: nat, e: nat)
    requires j <= e <= |s|
    requires forall k | j <= k < e :: IsSpace(s[k])
    requires e == |s| || !IsSpace(s[e])
    ensures SkipSpaces(s, j) == e
    decreases e - j
  {
    if j < e {
      SkipSpacesRun(s, j + 1, e);
    }
  }

  /** The match of the pattern starting at `i`, if any: the date text it captures. The
      `\s*` runs and the class `[:=]` cannot overlap, so a match at `i` is unique. */
  function MatchAt(s: string, i: nat): (r: Option<string>)
    requires i <= |s|
    ensures r.Some? ==> IsIsoDateText(r.value)
    ensures r.Some? ==> KeywordAt(s, i)
  {
    if !KeywordAt(s, i) then None else ValueAfter(s, i + 7)
  }

  /** `\bexpires`, in any case, at `i`. */
  predicate KeywordAt(s: string, i: nat)
    requires i <= |s|
  {
    (i == 0 || !IsWordChar(s[i - 1])) && i + 7 <= |s| && Lower(s[i..i + 7]) == "expires"
  }

  /** `\s*[:=]\s*` and the date, from `j` on. */
  function ValueAfter(s: string, j: nat): (r: Option<string>)
    requires j <= |s|
    ensures r.Some? ==> IsIsoDateText(r.value)
  {
    var j' := SkipSpaces(s, j);
    if j' == |s| || (s[j'] != ':' && s[j'] != '=') then None
    else DateAt(s, SkipSpaces(s, j' + 1))
  }

  /** `(\d{4}-\d{2}-\d{2})\b` at `k`. */
  function DateAt(s: string, k: nat): (r: Option<string>)
    requires k <= |s|
    ensures r.Some? ==> IsIsoDateText(r.value)
  {
    if k + 10 > |s| || !IsIsoDateText(s[k..k + 10]) then None
    else if k + 10 < |s| && IsWordChar(s[k + 10]) then None
    else Some(s[k..k + 10])
  }

  /** `expires`, in any case, at a word boundary, then spaces up to `j`, a `:` or `=` at
      `j`, spaces up to `k` and a date at `k` ending at a word boundary, is a match at
      `i` capturing that date. */
  lemma MatchesKeyValue(s: string, i: nat, j: nat, k: nat)
    requires i + 7 <= j < k && k + 10 <= |s|
    requires KeywordAt(s, i)
    requires forall m | i + 7 <= m < j :: IsSpace(s[m])
    requires s[j] == ':' || s[j] == '='
    requires forall m | j + 1 <= m < k :: IsSpace(s[m])
    requires IsIsoDateText(s[k..k + 10])
    requires k + 10 == |s| || !IsWordChar(s[k + 10])
    ensures MatchAt(s, i) == Some(s[k..k + 10])
  {
    SkipSpacesRun(s, i + 7, j);
    SkipSpacesRun(s, j + 1, k);
    DateAtBoundary(s, k);
    ValueAfterSeparator(s, i + 7, j, k);
  }

  lemma DateAtBoundary(s: string, k: nat)
    requires k + 10 <= |s| && IsIsoDateText(s[k..k + 10])
    requires k + 10 == |s| || !IsWordChar(s[k + 10])
    ensures DateAt(s, k) == Some(s[k..k + 10])
  {
  }

  lemma ValueAfterSeparator(s: string, j0: nat, j: nat, k: nat)
    requires j0 <= j < k <= |s|
    requires SkipSpaces(s, j0) == j && (s[j] == ':' || s[j] == '=')
    requires SkipSpaces(s, j + 1) == k
    ensures ValueAfter(s, j0) == DateAt(s, k)
  {
  }

  /** `_EXPIRES_RE.search(s)`: the leftmost position where the pattern matches. */
  function SearchFrom(s: string, from: nat): (r: Option<nat>)
    requires from <= |s|
    ensures r.Some? ==> from <= r.value <= |s| && MatchAt(s, r.value).Some?
    ensures r.Some? ==> forall k | from <= k < r.value :: MatchAt(s, k).None?
    ensures r.None? ==> forall k | from <= k <= |s| :: MatchAt(s, k).None?
  {
    var p := (k: nat) => k <= |s| && MatchAt(s, k).Some?;
    var r := FirstPosition(from, |s|, p);
    assert forall k: nat | k <= |s| :: p(k) == MatchAt(s, k).Some?;
    r
  }

  /** The date text `m.group(1)` of the first match in `s`, if there is one. */
  function ExpiresText(s: string): (r: Option<string>)
    ensures r.Some? ==> IsIsoDateText(r.value)
  {
    match SearchFrom(s, 0)
    case Some(i) => MatchAt(s, i)
    case None => None
  }

  /** Text holding a match somewhere has an expiry. */
  lemma ExpiresFound(s: string, i: nat)
    requires i <= |s| && MatchAt(s, i).Some?
    ensures ExpiresText(s).Some?
  {
  }

  // ---------------------------------------------------------------------------
  // `_parse_ignore_file`

  /** `IgnoreEntry`: a vulnerability id, its expiry date and the inline comment. */
  datatype IgnoreEntry = IgnoreEntry(vulnId: string, expires: Option<PyDate>, reason: Option<string>)

  /** What one line of the file gives: nothing, an entry, or the `ValueError` raised by
      `date.fromisoformat` on a date that does not exist (such as `2025-02-30`). */
  datatype LineOutcome = Skip | Entry(entry: IgnoreEntry) | InvalidDate(text: string)

  /** The index of the first `#` in `s`, or `|s|`. */
  function HashIndex(s: string): (r: nat)
    ensures r <= |s| && (r < |s| ==> s[r] == '#')
    ensures forall j | 0 <= j < r :: s[j] != '#'
  {
    if s == [] then 0
    else if s[0] == '#' then 0
    else 1 + HashIndex(s[1..])
  }

  /** `line.split("#", 1)`: the text before the first `#`, and the stripped text after it
      (`""` when there is no `#`). */
  function MainPart(line: string): string {
    line[..HashIndex(line)]
  }

  function CommentPart(line: string): string {
    var h := HashIndex(line);
    if h == |line| then "" else Strip(line[h + 1..])
  }

  /** The entry for the stripped line with the vulnerability id `id` and the date found
      in the main part or, failing that, in the comment. */
  function EntryFor(id: string, main: string, comment: string): LineOutcome {
    var reason := if comment == [] then None else Some(comment);
    var found := if ExpiresText(main).Some? then ExpiresText(main) else ExpiresText(comment);
    match found
    case None => Entry(IgnoreEntry(id, None, reason))
    case Some(t) =>
      match FromIsoFormat(t)
      case None => InvalidDate(t)
      case Some(d) => Entry(IgnoreEntry(id, Some(d), reason))
  }

  /** The entry carries the id it is given, the comment as its reason when there is one,
      and the first date found; it is never a skip. */
  lemma EntryForShape(id: string, main: string, comment: string)
    ensures !EntryFor(id, main, comment).Skip?
    ensures EntryFor(id, main, comment).Entry? ==>
      var e := EntryFor(id, main, comment).entry;
      e.vulnId == id
      && (e.reason.None? <==> comment == [])
      && (e.reason.Some? ==> e.reason.value == comment)
      && (e.expires.None? <==> ExpiresText(main).None? && ExpiresText(comment).None?)
      && (ExpiresText(main).Some? && e.expires.Some? ==> FromIsoFormat(ExpiresText(main).value) == Some(e.expires.value))
  {
  }

  /** One iteration of the loop over the file's lines. */
  function ParseLine(raw: string): LineOutcome {
    var line := Strip(raw);
    if line == [] || line[0] == '#' then Skip
    else
      var main := MainPart(line);
      var parts := SplitWhitespace(Strip(main));
      if parts == [] then Skip
      else EntryFor(Strip(parts[0]), main, CommentPart(line))
  }

  /** The first word of text that starts with a non-space is its leading run of
      non-whitespace. */
  lemma FirstWord(s: string)
    requires s != [] && !IsSpace(s[0])
    ensures SplitWhitespace(s) != [] && SplitWhitespace(s)[0] == s[..FirstSpaceFrom(s, 0)]
  {
  }

  /** The id of the main part, once the line is known to start with a non-space that is
      not `#`: its leading run of characters that are neither whitespace nor `#`. */
  lemma MainWord(line: string)
    requires line != [] && !IsSpace(line[0]) && line[0] != '#'
    ensures SplitWhitespace(Strip(MainPart(line))) != []
    ensures var w := Strip(SplitWhitespace(Strip(MainPart(line)))[0]);
      IsWord(w) && '#' !in w && StartsWith(line, w)
      && (|w| == |line| || IsSpace(line[|w|]) || line[|w|] == '#')
  {
    var h := HashIndex(line);
    var m := MainPart(line);
    assert m[0] == line[0];
    assert LStrip(m) == m;
    var r := Strip(m);
    assert r == RStrip(m) && r == m[..|r|];
    assert r[0] == m[0];
    FirstWord(r);
    var e := FirstSpaceFrom(r, 0);
    var w := r[..e];
    assert SplitWhitespace(r)[0] == w;
    assert IsWord(w);
    assert LStrip(w) == w;
    assert RStrip(w) == w;
    assert w == line[..e];
    assert forall j | 0 <= j < e :: w[j] == line[j];
    if e < |r| {
      assert line[e] == r[e];
    } else if |r| < |m| {
      assert line[e] == m[|r|];
    } else if h < |line| {
      assert line[e] == '#';
    }
  }

  /** A line is skipped exactly when it is blank or a comment: once the line starts with
      something else, its main part always has a first word. */
  lemma SkipIff(raw: string)
    ensures ParseLine(raw).Skip? <==> (Strip(raw) == [] || Strip(raw)[0] == '#')
  {
    var line := Strip(raw);
    StripShape(raw);
    if line != [] && line[0] != '#' {
      MainWord(line);
      var main := MainPart(line);
      var id := Strip(SplitWhitespace(Strip(main))[0]);
      assert ParseLine(raw) == EntryFor(id, main, CommentPart(line));
      EntryForShape(id, main, CommentPart(line));
    }
  }

  /** An entry's id is the line's leading run of characters other than whitespace and
      `#`; its reason is the stripped comment after the first `#`, absent when that is
      empty; its expiry is the first date in the main part, else the first in the
      comment; and every line that is not skipped gives an entry or the date error. */
  lemma EntryShape(raw: string)
    requires !ParseLine(raw).Skip?
    ensures var line := Strip(raw);
      line != [] && !IsSpace(line[0]) && line[0] != '#'
      && (ParseLine(raw).Entry? ==>
        var e := ParseLine(raw).entry;
        IsWord(e.vulnId) && '#' !in e.vulnId && StartsWith(line, e.vulnId)
        && (|e.vulnId| == |line| || IsSpace(line[|e.vulnId|]) || line[|e.vulnId|] == '#')
        && (e.reason.None? <==> CommentPart(line) == [])
        && (e.reason.Some? ==> e.reason.value == CommentPart(line))
        && (e.expires.None? <==> ExpiresText(MainPart(line)).None? && ExpiresText(CommentPart(line)).None?)
        && (ExpiresText(MainPart(line)).Some? && e.expires.Some? ==> FromIsoFormat(ExpiresText(MainPart(line)).value) == Some(e.expires.value)))
  {
    var line := Strip(raw);
    StripShape(raw);
    SkipIff(raw);
    MainWord(line);
    var main := MainPart(line);
    var id := Strip(SplitWhitespace(Strip(main))[0]);
    assert ParseLine(raw) == EntryFor(id, main, CommentPart(line));
    EntryForShape(id, main, CommentPart(line));
  }

  /** What each line gives. */
  function Outcomes(lines: seq<string>): (r: seq<LineOutcome>)
    ensures |r| == |lines| && forall k | 0 <= k < |lines| :: r[k] == ParseLine(lines[k])
  {
    seq(|lines|, k requires 0 <= k < |lines| => ParseLine(lines[k]))
  }

  /** The entries of the outcomes, in order; the first date error ends the parse. */
  function Collect(os: seq<LineOutcome>): (r: Result<seq<IgnoreEntry>, string>)
    ensures r.Ok? ==> |r.value| <= |os|
  {
    if os == [] then Ok([])
    else
      match Collect(os[..|os| - 1])
      case Err(t) => Err(t)
      case Ok(es) =>
        match os[|os| - 1]
        case Skip => Ok(es)
        case Entry(e) => Ok(es + [e])
        case InvalidDate(t) => Err(t)
  }

  /** The entries of the file's lines. */
  function ParseEntries(lines: seq<string>): Result<seq<IgnoreEntry>, string> {
    Collect(Outcomes(lines))
  }

  /** Collecting succeeds exactly when no outcome is a date error, and outcomes that are
      all entries give those entries one for one. */
  lemma {:induction false} CollectOkIff(os: seq<LineOutcome>)
    ensures Collect(os).Ok? <==> forall k | 0 <= k < |os| :: !os[k].InvalidDate?
    ensures (forall k | 0 <= k < |os| :: os[k].Entry?) ==>
      Collect(os).Ok? && |Collect(os).value| == |os|
      && forall k | 0 <= k < |os| :: Collect(os).value[k] == os[k].entry
  {
    if os != [] {
      var front := os[..|os| - 1];
      CollectOkIff(front);
      assert forall k | 0 <= k < |front| :: front[k] == os[k];
    }
  }

  /** The parse of the file succeeds exactly when no line holds a date that does not
      exist; a file whose lines are all entries gives one entry per line, in order. */
  lemma ParseEntriesOkIff(lines: seq<string>)
    ensures ParseEntries(lines).Ok? <==> forall k | 0 <= k < |lines| :: !ParseLine(lines[k]).InvalidDate?
    ensures (forall k | 0 <= k < |lines| :: ParseLine(lines[k]).Entry?) ==>
      ParseEntries(lines).Ok? && |ParseEntries(lines).value| == |lines|
      && forall k | 0 <= k < |lines| :: ParseEntries(lines).value[k] == ParseLine(lines[k]).entry
  {
    var os := Outcomes(lines);
    CollectOkIff(os);
    assert ParseEntries(lines) == Collect(os);
    assert (forall k | 0 <= k < |lines| :: !ParseLine(lines[k]).InvalidDate?) <==> (forall k | 0 <= k < |os| :: !os[k].InvalidDate?);
    assert (forall k | 0 <= k < |lines| :: ParseLine(lines[k]).Entry?) <==> (forall k | 0 <= k < |os| :: os[k].Entry?);
  }

  /** A date error among the first `i` outcomes is the parse's error, whatever follows. */
  lemma {:induction false} CollectStop(os: seq<LineOutcome>, i: nat)
    requires 0 < i <= |os| && Collect(os[..i]).Err?
    ensures Collect(os) == Collect(os[..i])
    decreases |os| - i
  {
    if i < |os| {
      assert os[..i + 1][..i] == os[..i];
      CollectStop(os, i + 1);
    } else {
      assert os[..i] == os;
    }
  }

  /** The loop of `_parse_ignore_file` over the lines, up to the expiry check. */
  method ParseIgnoreLines(lines: seq<string>) returns (r: Result<seq<IgnoreEntry>, string>)
    ensures r == ParseEntries(lines)
  {
    ghost var os := Outcomes(lines);
    var entries: seq<IgnoreEntry> := [];
    var i := 0;
    while i < |lines|
      invariant 0 <= i <= |lines|
      invariant Collect(os[..i]) == Ok(entries)
    {
      assert os[..i + 1][..i] == os[..i];
      var o := ParseLine(lines[i]);
      assert o == os[i];
      i := i + 1;
      if o.Skip? {
        continue;
      }
      if o.InvalidDate? {
        CollectStop(os, i);
        return Err(o.text);
      }
      entries := entries + [o.entry];
    }
    assert os[..|os|] == os;
    r := Ok(entries);
  }

  // ---------------------------------------------------------------------------
  // The expiry check

  /** `today > e.expires` */
  predicate IsExpired(e: IgnoreEntry, today: PyDate) {
    e.expires.Some? && Before(e.expires.value, today)
  }

  /** `[e for e in entries if ... today > e.expires]` */
  function ExpiredEntries(es: seq<IgnoreEntry>, today: PyDate): (r: seq<IgnoreEntry>)
    ensures |r| <= |es|
    ensures forall k | 0 <= k < |r| :: IsExpired(r[k], today) && r[k] in es
    ensures forall k | 0 <= k < |es| :: IsExpired(es[k], today) ==> es[k] in r
  {
    if es == [] then []
    else
      var front := ExpiredEntries(es[..|es| - 1], today);
      assert forall k | 0 <= k < |es| - 1 :: es[k] == es[..|es| - 1][k];
      if IsExpired(es[|es| - 1], today) then front + [es[|es| - 1]] else front
  }

  const ExpiredHeader: string := "pip-audit ignore entries " + "expired (fail-closed):"

  /** `f"- {e.vuln_id} (expires={e.expires.isoformat()})"` */
  function ExpiredLine(e: IgnoreEntry): string
    requires e.expires.Some?
  {
    "- " + e.vulnId + " (expires=" + IsoFormat(e.expires.value) + ")"
  }

  /** The lines of the `SystemExit` message. */
  function ExpiredLines(xs: seq<IgnoreEntry>): (r: seq<string>)
    requires forall k | 0 <= k < |xs| :: xs[k].expires.Some?
    ensures |r| == 1 + |xs| && r[0] == ExpiredHeader
    ensures forall k | 0 < k < |r| :: r[k] == ExpiredLine(xs[k - 1])
  {
    [ExpiredHeader] + ExpiredBody(xs)
  }

  function ExpiredBody(xs: seq<IgnoreEntry>): (r: seq<string>)
    requires forall k | 0 <= k < |xs| :: xs[k].expires.Some?
    ensures |r| == |xs| && forall k | 0 <= k < |xs| :: r[k] == ExpiredLine(xs[k])
  {
    seq(|xs|, k requires 0 <= k < |xs| => ExpiredLine(xs[k]))
  }

  /** The entries, or the `SystemExit` message listing every expired one in file order. */
  function Gate(es: seq<IgnoreEntry>, today: PyDate): Result<seq<IgnoreEntry>, string> {
    var expired := ExpiredEntries(es, today);
    if expired == [] then Ok(es)
    else Err(Join(ExpiredLines(expired), "\n"))
  }

  /** The gate lets the entries through, unchanged, exactly when none has expired; an
      entry expiring today or later, or with no expiry, never stops it. */
  lemma GateIff(es: seq<IgnoreEntry>, today: PyDate)
    ensures Gate(es, today).Ok? <==> forall k | 0 <= k < |es| :: !IsExpired(es[k], today)
    ensures Gate(es, today).Ok? ==> Gate(es, today).value == es
    ensures Gate(es, today).Err? ==> StartsWith(Gate(es, today).error, ExpiredHeader)
  {
    var expired := ExpiredEntries(es, today);
    if expired != [] {
      var lines := ExpiredLines(expired);
      assert IsExpired(expired[0], today);
      if |lines| > 1 {
        assert Join(lines, "\n") == ExpiredHeader + ("\n" + Join(lines[1..], "\n"));
      }
    }
  }

  /** `today > d` is false when `d` is today or later. */
  lemma NotExpiredFromToday(e: IgnoreEntry, today: PyDate)
    requires e.expires.None? || !Before(e.expires.value, today)
    ensures !IsExpired(e, today)
    ensures e.expires == Some(today) ==> !IsExpired(e, today)
  {
  }

  /** `_parse_ignore_file`: a file that does not exist gives no entries. */
  datatype ParseError = BadDate(text: string) | ExpiredIgnores(message: string)

  function ParseIgnoreFile(exists_: bool, text: string, today: PyDate): (r: Result<seq<IgnoreEntry>, ParseError>)
    ensures !exists_ ==> r == Ok([])
  {
    if !exists_ then Ok([])
    else
      match ParseEntries(SplitLines(text))
      case Err(t) => Err(BadDate(t))
      case Ok(es) =>
        match Gate(es, today)
        case Err(msg) => Err(ExpiredIgnores(msg))
        case Ok(kept) => Ok(kept)
  }

  // ---------------------------------------------------------------------------
  // `_run_pip_audit` and `main`

  /** `["pip-audit"]` followed by `--ignore-vuln <id>` per entry. */
  function PipAuditCommand(ignore: seq<IgnoreEntry>): seq<string> {
    if ignore == [] then ["pip-audit"]
    else PipAuditCommand(ignore[..|ignore| - 1]) + ["--ignore-vuln", ignore[|ignore| - 1].vulnId]
  }

  /** The command line names `pip-audit` and then each entry's id, in order, each after
      its own `--ignore-vuln`. */
  lemma {:induction false} CommandShape(ignore: seq<IgnoreEntry>)
    ensures |PipAuditCommand(ignore)| == 1 + 2 * |ignore|
    ensures PipAuditCommand(ignore)[0] == "pip-audit"
    ensures forall k | 0 <= k < |ignore| ::
      PipAuditCommand(ignore)[1 + 2 * k] == "--ignore-vuln" && PipAuditCommand(ignore)[2 + 2 * k] == ignore[k].vulnId
  {
    if ignore != [] {
      var front := ignore[..|ignore| - 1];
      CommandShape(front);
      assert forall k | 0 <= k < |front| :: front[k] == ignore[k];
    }
  }

  /** The loop building the command in `_run_pip_audit`. */
  method BuildCommand(ignore: seq<IgnoreEntry>) returns (cmd: seq<string>)
    ensures cmd == PipAuditCommand(ignore)
  {
    cmd := ["pip-audit"];
    for i := 0 to |ignore|
      invariant cmd == PipAuditCommand(ignore[..i])
    {
      assert ignore[..i + 1][..i] == ignore[..i];
      cmd := cmd + ["--ignore-vuln", ignore[i].vulnId];
    }
    assert ignore[..|ignore|] == ignore;
  }

  /** How the gate ends: the audit ran with its exit status, an expired ignore stopped it
      (`SystemExit` with the message, status 1), or a date that does not exist raised
      `ValueError` (status 1). */
  datatype GateOutcome = Audited(command: seq<string>, status: int) | Refused(message: string) | Crashed(text: string)

  function ExitStatus(o: GateOutcome): int {
    match o
    case Audited(_, status) => status
    case Refused(_) => 1
    case Crashed(_) => 1
  }

  /** `main`, with the audit given as the status it returns for a command line. */
  function Script(exists_: bool, text: string, today: PyDate, audit: seq<string> -> int): (o: GateOutcome)
    ensures o.Audited? <==> ParseIgnoreFile(exists_, text, today).Ok?
    ensures o.Audited? ==>
      o.command == PipAuditCommand(ParseIgnoreFile(exists_, text, today).value) && o.status == audit(o.command)
    ensures !exists_ ==> o == Audited(["pip-audit"], audit(["pip-audit"]))
  {
    match ParseIgnoreFile(exists_, text, today)
    case Err(BadDate(t)) => Crashed(t)
    case Err(ExpiredIgnores(msg)) => Refused(msg)
    case Ok(es) => var cmd := PipAuditCommand(es); Audited(cmd, audit(cmd))
  }

  /** The audit runs exactly when every line's date exists and none has expired, and it
      then ignores every entry of the file, in order. */
  lemma MainRunsIff(text: string, today: PyDate, audit: seq<string> -> int)
    ensures var lines := SplitLines(text);
      Script(true, text, today, audit).Audited? <==>
        (ParseEntries(lines).Ok? && forall k | 0 <= k < |ParseEntries(lines).value| :: !IsExpired(ParseEntries(lines).value[k], today))
    ensures var lines := SplitLines(text);
      Script(true, text, today, audit).Audited? ==>
        Script(true, text, today, audit).command == PipAuditCommand(ParseEntries(lines).value)
  {
    var lines := SplitLines(text);
    if ParseEntries(lines).Ok? {
      GateIff(ParseEntries(lines).value, today);
    }
  }
}
