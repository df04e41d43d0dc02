/** The boundary check run in CI: no tracked path and no tracked file's bytes may name
    the premium product. What reading each path gives is an input. */
module CheckBoundaries {
  import opened Common
  import opened PyStr
  import opened Bytes
  import opened GitTree

  datatype Kind = PathKind | ContentKind

  /** `Finding(path, kind, needle)` */
  datatype Finding = Finding(path: string, kind: Kind, needle: string)

  /** `_forbidden_needles()`: built from pieces so that the check's own text holds none. */
  function ForbiddenNeedles(): (r: seq<string>)
    ensures |r| == 3 && forall k | 0 <= k < 3 :: r[k] != [] && IsAscii(r[k])
  {
    var forbiddenPrefix := "conciliador" + "_" + "premium" + "_";
    var premiumRepoDir := "conciliador" + "_" + "bancario" + "_" + "premium" + "_" + "productividad";
    var premiumDist := "conciliador" + "-" + "bancario" + "-" + "premium" + "-" + "productividad";
    [forbiddenPrefix, premiumRepoDir, premiumDist]
  }

  const UnreadableNeedle: string := "(archivo no legible)"

  /** A path finding per needle contained in the relative path, in needle order. */
  function PathHits(rel: string, ns: seq<string>): (r: seq<Finding>)
    ensures |r| <= |ns|
    ensures forall k | 0 <= k < |r| :: r[k].path == rel && r[k].kind == PathKind && r[k].needle in ns && PyStr.Contains(rel, r[k].needle)
    ensures forall k | 0 <= k < |ns| :: PyStr.Contains(rel, ns[k]) ==> Finding(rel, PathKind, ns[k]) in r
  {
    if ns == [] then []
    else
      var front := PathHits(rel, ns[..|ns| - 1]);
      assert forall k | 0 <= k < |ns| - 1 :: ns[k] == ns[..|ns| - 1][k];
      var n := ns[|ns| - 1];
      front + (if PyStr.Contains(rel, n) then [Finding(rel, PathKind, n)] else [])
  }

  /** A content finding per needle whose encoding occurs in the bytes, in needle order. */
  function ContentHits(rel: string, data: seq<byte>, ns: seq<string>): (r: seq<Finding>)
    requires forall k | 0 <= k < |ns| :: IsAscii(ns[k])
    ensures |r| <= |ns|
    ensures forall k | 0 <= k < |r| :: r[k].path == rel && r[k].kind == ContentKind && r[k].needle in ns && IsAscii(r[k].needle) && ContainsBytes(data, Ascii(r[k].needle))
    ensures forall k | 0 <= k < |ns| :: ContainsBytes(data, Ascii(ns[k])) ==> Finding(rel, ContentKind, ns[k]) in r
  {
    if ns == [] then []
    else
      var front := ContentHits(rel, data, ns[..|ns| - 1]);
      assert forall k | 0 <= k < |ns| - 1 :: ns[k] == ns[..|ns| - 1][k];
      var n := ns[|ns| - 1];
      front + (if ContainsBytes(data, Ascii(n)) then [Finding(rel, ContentKind, n)] else [])
  }

  /** The findings for one file with relative path `rel` and bytes `data` (`None` when
      reading raised `OSError`), for the needles `ns`. */
  function FindingsWith(rel: string, data: Option<seq<byte>>, ns: seq<string>): seq<Finding>
    requires forall k | 0 <= k < |ns| :: IsAscii(ns[k])
  {
    PathHits(rel, ns) + (if data.None? then [Finding(rel, ContentKind, UnreadableNeedle)] else ContentHits(rel, data.value, ns))
  }

  /** The findings for one tracked path. */
  function FileFindings(path: string, data: Option<seq<byte>>): seq<Finding> {
    FindingsWith(RelPath(path), data, ForbiddenNeedles())
  }

  /** The findings for each path, with the files' bytes as `read` gives them. */
  function FindingsOf(read: string -> Option<seq<byte>>): string -> seq<Finding> {
    p => FileFindings(p, read(p))
  }

  /** Each listed path's findings. */
  function PerFile(paths: seq<string>, findings: string -> seq<Finding>): (r: seq<seq<Finding>>)
    ensures |r| == |paths| && forall k | 0 <= k < |paths| :: r[k] == findings(paths[k])
  {
    seq(|paths|, k requires 0 <= k < |paths| => findings(paths[k]))
  }

  function Flatten(xs: seq<seq<Finding>>): seq<Finding> {
    if xs == [] then [] else Flatten(xs[..|xs| - 1]) + xs[|xs| - 1]
  }

  /** The findings of the tracked paths, in listing order. */
  function Scan(paths: seq<string>, read: string -> Option<seq<byte>>): seq<Finding> {
    Flatten(PerFile(paths, FindingsOf(read)))
  }

  /** `scan_repo_for_forbidden_refs`: the findings, or the exception of the listing. */
  function ScanRepo(l: Listing, read: string -> Option<seq<byte>>): Result<seq<Finding>, ListingError> {
    match TrackedPaths(l)
    case Err(e) => Err(e)
    case Ok(paths) => Ok(Scan(paths, read))
  }

  /** The inner loops of `scan_repo_for_forbidden_refs` for one file: the path, then
      (when the file could be read) its bytes, against every needle. */
  method ScanFileWith(rel: string, data: Option<seq<byte>>, needles: seq<string>) returns (findings: seq<Finding>)
    requires forall k | 0 <= k < |needles| :: IsAscii(needles[k])
    ensures findings == FindingsWith(rel, data, needles)
  {
    findings := PathLoop(rel, needles);
    if data.None? {
      findings := findings + [Finding(rel, ContentKind, UnreadableNeedle)];
      return;
    }
    var content := ContentLoop(rel, data.value, needles);
    findings := findings + content;
  }

  /** The loop over the needles for the path. */
  method PathLoop(rel: string, needles: seq<string>) returns (findings: seq<Finding>)
    ensures findings == PathHits(rel, needles)
  {
    findings := [];
    for i := 0 to |needles|
      invariant findings == PathHits(rel, needles[..i])
    {
      assert needles[..i + 1][..i] == needles[..i];
      if PyStr.Contains(rel, needles[i]) {
        findings := findings + [Finding(rel, PathKind, needles[i])];
      }
    }
    assert needles[..|needles|] == needles;
  }

  /** The loop over the needles for the bytes. */
  method ContentLoop(rel: string, data: seq<byte>, needles: seq<string>) returns (content: seq<Finding>)
    requires forall k | 0 <= k < |needles| :: IsAscii(needles[k])
    ensures content == ContentHits(rel, data, needles)
  {
    content := [];
    for i := 0 to |needles|
      invariant content == ContentHits(rel, data, needles[..i])
    {
      assert needles[..i + 1][..i] == needles[..i];
      if ContainsBytes(data, Ascii(needles[i])) {
        content := content + [Finding(rel, ContentKind, needles[i])];
      }
    }
    assert needles[..|needles|] == needles;
  }

  method ScanFile(path: string, data: Option<seq<byte>>) returns (findings: seq<Finding>)
    ensures findings == FileFindings(path, data)
  {
    findings := ScanFileWith(RelPath(path), data, ForbiddenNeedles());
  }

  /** The outer loop over the listed paths. */
  method ScanPaths(paths: seq<string>, read: string -> Option<seq<byte>>) returns (findings: seq<Finding>)
    ensures findings == Scan(paths, read)
  {
    ghost var per := PerFile(paths, FindingsOf(read));
    findings := [];
    for i := 0 to |paths|
      invariant findings == Flatten(per[..i])
    {
      assert per[..i + 1][..i] == per[..i];
      var fileFindings := ScanFile(paths[i], read(paths[i]));
      findings := findings + fileFindings;
    }
    assert per[..|paths|] == per;
  }

  // ---------------------------------------------------------------------------
  // Properties

  /** A file's path findings come first and its content findings after them; an
      unreadable file gives exactly one content finding, the unreadable marker. */
  lemma FindingsShape(rel: string, data: Option<seq<byte>>, ns: seq<string>)
    requires forall k | 0 <= k < |ns| :: IsAscii(ns[k])
    ensures var r := FindingsWith(rel, data, ns); var h := |PathHits(rel, ns)|;
      h <= |r| && (forall k | 0 <= k < h :: r[k].kind == PathKind)
      && (forall k | h <= k < |r| :: r[k].kind == ContentKind)
      && (forall k | 0 <= k < |r| :: r[k].path == rel)
      && (data.None? ==> |r| == h + 1 && r[h].needle == UnreadableNeedle)
  {
    var ph := PathHits(rel, ns);
    var tail := if data.None? then [Finding(rel, ContentKind, UnreadableNeedle)] else ContentHits(rel, data.value, ns);
    var r := ph + tail;
    assert forall k | |ph| <= k < |r| :: r[k] == tail[k - |ph|];
  }

  lemma FileFindingsShape(path: string, data: Option<seq<byte>>)
    ensures var r := FileFindings(path, data); var h := |PathHits(RelPath(path), ForbiddenNeedles())|;
      h <= |r| && (forall k | 0 <= k < h :: r[k].kind == PathKind)
      && (forall k | h <= k < |r| :: r[k].kind == ContentKind)
      && (forall k | 0 <= k < |r| :: r[k].path == RelPath(path))
      && (data.None? ==> |r| == h + 1 && r[h].needle == UnreadableNeedle)
  {
    FindingsShape(RelPath(path), data, ForbiddenNeedles());
  }

  /** A needle in the path gives a path finding whether or not the file can be read, and
      a needle in the bytes of a readable file gives a content finding; an unreadable
      file's only content finding is the unreadable marker. */
  lemma NeedleFound(path: string, data: Option<seq<byte>>, k: nat)
    requires k < 3
    ensures PyStr.Contains(RelPath(path), ForbiddenNeedles()[k]) ==> Finding(RelPath(path), PathKind, ForbiddenNeedles()[k]) in FileFindings(path, data)
    ensures data.Some? && ContainsBytes(data.value, Ascii(ForbiddenNeedles()[k])) ==>
      Finding(RelPath(path), ContentKind, ForbiddenNeedles()[k]) in FileFindings(path, data)
    ensures data.None? ==> forall f | f in FileFindings(path, data) && f.kind == ContentKind :: f.needle == UnreadableNeedle
  {
  }

  /** No path finding exactly when the path holds no needle. */
  lemma {:induction false} PathHitsEmptyIff(rel: string, ns: seq<string>)
    ensures PathHits(rel, ns) == [] <==> forall k | 0 <= k < |ns| :: !PyStr.Contains(rel, ns[k])
  {
    if ns != [] {
      var front := ns[..|ns| - 1];
      PathHitsEmptyIff(rel, front);
      assert forall k | 0 <= k < |front| :: front[k] == ns[k];
    }
  }

  /** No content finding exactly when the bytes hold no needle. */
  lemma {:induction false} ContentHitsEmptyIff(rel: string, data: seq<byte>, ns: seq<string>)
    requires forall k | 0 <= k < |ns| :: IsAscii(ns[k])
    ensures ContentHits(rel, data, ns) == [] <==> forall k | 0 <= k < |ns| :: !ContainsBytes(data, Ascii(ns[k]))
  {
    if ns != [] {
      var front := ns[..|ns| - 1];
      ContentHitsEmptyIff(rel, data, front);
      assert forall k | 0 <= k < |front| :: front[k] == ns[k];
    }
  }

  /** A readable file gives no finding exactly when its path and its bytes miss every
      needle; an unreadable one always gives one. */
  lemma CleanFileIff(path: string, data: Option<seq<byte>>)
    ensures data.None? ==> FileFindings(path, data) != []
    ensures data.Some? ==> (FileFindings(path, data) == [] <==>
      forall k | 0 <= k < 3 :: !PyStr.Contains(RelPath(path), ForbiddenNeedles()[k]) && !ContainsBytes(data.value, Ascii(ForbiddenNeedles()[k])))
  {
    var ns := ForbiddenNeedles();
    PathHitsEmptyIff(RelPath(path), ns);
    if data.Some? {
      ContentHitsEmptyIff(RelPath(path), data.value, ns);
    }
  }

  /** Findings follow the listing order, a file's own findings kept together. */
  lemma ScanAppend(paths: seq<string>, p: string, read: string -> Option<seq<byte>>)
    ensures Scan(paths + [p], read) == Scan(paths, read) + FileFindings(p, read(p))
  {
    var f := FindingsOf(read);
    var per := PerFile(paths + [p], f);
    assert per[..|paths|] == PerFile(paths, f);
    assert per[|paths|] == f(p);
  }

  /** Nothing is found exactly when every part is empty. */
  lemma {:induction false} FlattenEmptyIff(xs: seq<seq<Finding>>)
    ensures Flatten(xs) == [] <==> forall k | 0 <= k < |xs| :: xs[k] == []
  {
    if xs != [] {
      var front := xs[..|xs| - 1];
      FlattenEmptyIff(front);
      assert forall k | 0 <= k < |front| :: front[k] == xs[k];
    }
  }

  /** The scan finds nothing exactly when no file gives a finding. */
  lemma ScanEmptyIff(paths: seq<string>, read: string -> Option<seq<byte>>)
    ensures Scan(paths, read) == [] <==> forall k | 0 <= k < |paths| :: FileFindings(paths[k], read(paths[k])) == []
  {
    FlattenEmptyIff(PerFile(paths, FindingsOf(read)));
  }

  // ---------------------------------------------------------------------------
  // `main`

  const FailedHeader: string := "Boundary check FAILED: se detectaron " + "referencias prohibidas.\n"

  function KindText(k: Kind): string {
    match k
    case PathKind => "path"
    case ContentKind => "content"
  }

  function FindingLine(f: Finding): string {
    "- " + f.path + " (" + KindText(f.kind) + "): " + f.needle + "\n"
  }

  function FindingLines(fs: seq<Finding>): string {
    if fs == [] then "" else FindingLines(fs[..|fs| - 1]) + FindingLine(fs[|fs| - 1])
  }

  /** How `main` ends: a status and what it wrote to stderr, or an uncaught exception of
      the listing (status 1, with a traceback). */
  datatype CheckExit = Exit(status: int, stderr: string) | Raised(error: ListingError)

  function Script(l: Listing, read: string -> Option<seq<byte>>): (r: CheckExit)
    ensures r.Raised? <==> TrackedPaths(l).Err?
    ensures r.Raised? ==> r.error == TrackedPaths(l).error
    ensures r.Exit? ==> (r.status == 0 <==> ScanRepo(l, read).value == [])
    ensures r.Exit? ==> (r.status == 0 || r.status == 2)
    ensures r.Exit? && r.status == 0 ==> r.stderr == ""
    ensures r.Exit? && r.status == 2 ==> StartsWith(r.stderr, FailedHeader)
  {
    match ScanRepo(l, read)
    case Err(e) => Raised(e)
    case Ok(findings) =>
      if findings == [] then Exit(0, "")
      else Exit(2, FailedHeader + FindingLines(findings))
  }

  /** With git printing these paths, the check passes exactly when every file is clean. */
  lemma MainPassesIff(paths: seq<string>, read: string -> Option<seq<byte>>)
    requires forall k | 0 <= k < |paths| :: paths[k] != [] && '\0' !in paths[k]
    ensures Script(Output(LsFilesOutput(paths)), read).Exit?
    ensures Script(Output(LsFilesOutput(paths)), read).status == 0 <==>
      forall k | 0 <= k < |paths| :: FileFindings(paths[k], read(paths[k])) == []
  {
    ListingRoundTrip(paths);
    ScanEmptyIff(paths, read);
  }
}
