/** The secret scan run in CI: every tracked file yields at most one finding, from the
    first rule that applies (a tracked file missing from the working tree, a sensitive
    name or extension, an unreadable file, a private-key marker in a small file). What
    the file system and `git status` answer for each path are inputs. */
module SecretScan {
  import opened Common
  import opened PyStr
  import opened Bytes
  import opened GitTree

  datatype SecretFinding = SecretFinding(path: string, reason: string)

  const ForbiddenNames: set<string> := {"license.lic"}
  const ForbiddenSuffixes: set<string> := {".pem", ".key", ".p12", ".pfx"}

  /** The private-key markers, in the order they are tried. */
  const MarkerTexts: seq<string> := ["BEGIN " + "PRIVATE KEY", "BEGIN RSA " + "PRIVATE KEY"]

  const SizeLimit: nat := 2000000

  const MissingReason: string := "archivo trackeado falta en working tree " + "(posible delete no aplicado)"
  const SensitiveNameReason: string := "archivo sensible trackeado"
  const UnreadableReason: string := "archivo trackeado no legible"

  function SuffixReason(suffix: string): string {
    "extension sensible trackeada (" + suffix + ")"
  }

  function MarkerReason(marker: string): string {
    "marker sensible detectado: " + marker
  }

  lemma MarkersAreAscii()
    ensures |MarkerTexts| == 2 && forall k | 0 <= k < 2 :: IsAscii(MarkerTexts[k])
  {
  }

  /** The markers as bytes. */
  function Marker(k: nat): (r: seq<byte>)
    requires k < |MarkerTexts|
    ensures |r| == |MarkerTexts[k]|
  {
    MarkersAreAscii();
    Ascii(MarkerTexts[k])
  }

  /** What the working tree holds at a tracked path: nothing, with the output of
      `git status --porcelain -- <path>` (`None` when that command raised); or a file,
      with its size (`None` when `stat` raised `OSError`) and its bytes (`None` when
      reading raised `OSError`). */
  datatype FileState = Missing(status: Option<string>) | Present(size: Option<nat>, data: Option<seq<byte>>)

  /** `_git_status_is_deleted`: a staged or unstaged delete. */
  function IsDeletedStatus(status: Option<string>): (r: bool)
    ensures r <==> status.Some? && (StartsWith(status.value, " D ") || StartsWith(status.value, "D "))
  {
    status.Some? && (StartsWith(status.value, " D ") || StartsWith(status.value, "D  ") || StartsWith(status.value, "D "))
  }

  /** The index of the first marker, in list order, that occurs in the data. */
  function FirstMarker(data: seq<byte>, from: nat): (r: Option<nat>)
    requires from <= |MarkerTexts|
    ensures r.Some? ==> from <= r.value < |MarkerTexts| && ContainsBytes(data, Marker(r.value))
    ensures forall k | from <= k < |MarkerTexts| && (r.None? || k < r.value) :: !ContainsBytes(data, Marker(k))
    decreases |MarkerTexts| - from
  {
    if from == |MarkerTexts| then None
    else if ContainsBytes(data, Marker(from)) then Some(from)
    else FirstMarker(data, from + 1)
  }

  /** `path.name.lower()` and `path.suffix.lower()` */
  function NameOf(path: string): string { Lower(PathName(path)) }
  function SuffixOf(path: string): string { Lower(Suffix(PathName(path))) }

  /** The finding for one tracked path, if any. */
  function FindingFor(path: string, st: FileState): (r: Option<SecretFinding>)
    ensures r.Some? ==> r.value.path == RelPath(path)
  {
    var rel := RelPath(path);
    match st
    case Missing(status) =>
      if IsDeletedStatus(status) then None else Some(SecretFinding(rel, MissingReason))
    case Present(size, data) =>
      if NameOf(path) in ForbiddenNames then Some(SecretFinding(rel, SensitiveNameReason))
      else if SuffixOf(path) in ForbiddenSuffixes then Some(SecretFinding(rel, SuffixReason(SuffixOf(path))))
      else if size.None? then Some(SecretFinding(rel, UnreadableReason))
      else if size.value > SizeLimit then None
      else if data.None? then Some(SecretFinding(rel, UnreadableReason))
      else
        match FirstMarker(data.value, 0)
        case None => None
        case Some(k) => Some(SecretFinding(rel, MarkerReason(MarkerTexts[k])))
  }

  function AsSeq(o: Option<SecretFinding>): (r: seq<SecretFinding>)
    ensures |r| <= 1 && (r == [] <==> o.None?) && (o.Some? ==> r == [o.value])
  {
    if o.None? then [] else [o.value]
  }

  /** The finding for each path, with the files as `fs` shows them. */
  function FindingOf(fs: string -> FileState): string -> Option<SecretFinding> {
    p => FindingFor(p, fs(p))
  }

  /** The findings of `paths`, one at most per path, in listing order. */
  function ScanWith(paths: seq<string>, finding: string -> Option<SecretFinding>): (r: seq<SecretFinding>)
    ensures |r| <= |paths|
  {
    if paths == [] then []
    else ScanWith(paths[..|paths| - 1], finding) + AsSeq(finding(paths[|paths| - 1]))
  }

  /** The findings of the tracked paths, in listing order. */
  function Scan(paths: seq<string>, fs: string -> FileState): (r: seq<SecretFinding>)
    ensures |r| <= |paths|
  {
    ScanWith(paths, FindingOf(fs))
  }

  /** `scan_tracked_files_for_secrets`: the findings, or the exception of the listing. */
  function ScanTrackedFiles(l: Listing, fs: string -> FileState): Result<seq<SecretFinding>, ListingError> {
    match TrackedPaths(l)
    case Err(e) => Err(e)
    case Ok(paths) => Ok(Scan(paths, fs))
  }

  /** The content scan of one small, readable file: the reason naming the first marker
      found, trying them in order and stopping at the first. */
  method MarkerFinding(rel: string, data: seq<byte>) returns (f: Option<SecretFinding>)
    ensures FirstMarker(data, 0).None? ==> f.None?
    ensures FirstMarker(data, 0).Some? ==> f == Some(SecretFinding(rel, MarkerReason(MarkerTexts[FirstMarker(data, 0).value])))
  {
    f := None;
    var k := 0;
    while k < |MarkerTexts|
      invariant 0 <= k <= |MarkerTexts|
      invariant FirstMarker(data, 0) == FirstMarker(data, k)
    {
      if ContainsBytes(data, Marker(k)) {
        f := Some(SecretFinding(rel, MarkerReason(MarkerTexts[k])));
        break;
      }
      k := k + 1;
    }
  }

  /** The loop of `scan_tracked_files_for_secrets` over the listed paths. */
  method ScanPaths(paths: seq<string>, fs: string -> FileState) returns (findings: seq<SecretFinding>)
    ensures findings == Scan(paths, fs)
  {
    findings := [];
    for i := 0 to |paths|
      invariant findings == Scan(paths[..i], fs)
    {
      assert paths[..i + 1][..i] == paths[..i];
      var path := paths[i];
      var rel := RelPath(path);
      var st := fs(path);
      if st.Missing? {
        if IsDeletedStatus(st.status) {
          continue;
        }
        findings := findings + [SecretFinding(rel, MissingReason)];
        continue;
      }
      var name := NameOf(path);
      var suffix := SuffixOf(path);
      if name in ForbiddenNames {
        findings := findings + [SecretFinding(rel, SensitiveNameReason)];
        continue;
      }
      if suffix in ForbiddenSuffixes {
        findings := findings + [SecretFinding(rel, SuffixReason(suffix))];
        continue;
      }
      if st.size.None? {
        findings := findings + [SecretFinding(rel, UnreadableReason)];
        continue;
      }
      if st.size.value > SizeLimit {
        continue;
      }
      if st.data.None? {
        findings := findings + [SecretFinding(rel, UnreadableReason)];
        continue;
      }
      var f := MarkerFinding(rel, st.data.value);
      findings := findings + AsSeq(f);
    }
    assert paths[..|paths|] == paths;
  }

  // ---------------------------------------------------------------------------
  // Properties of the rules

  /** A missing path is silent exactly when git reports it deleted, and otherwise is
      reported as missing; its contents are never looked at. */
  lemma MissingFile(path: string, status: Option<string>)
    ensures FindingFor(path, Missing(status)).None? <==> IsDeletedStatus(status)
    ensures !IsDeletedStatus(status) ==> FindingFor(path, Missing(status)) == Some(SecretFinding(RelPath(path), MissingReason))
  {
  }

  /** A sensitive name or extension is reported whatever the file's size and bytes, and
      whether or not they can be read. */
  lemma SensitiveNameSkipsContent(path: string, s1: Option<nat>, d1: Option<seq<byte>>, s2: Option<nat>, d2: Option<seq<byte>>)
    requires NameOf(path) in ForbiddenNames || SuffixOf(path) in ForbiddenSuffixes
    ensures FindingFor(path, Present(s1, d1)) == FindingFor(path, Present(s2, d2))
    ensures FindingFor(path, Present(s1, d1)).Some?
    ensures SuffixOf(path) in ForbiddenSuffixes && NameOf(path) !in ForbiddenNames ==>
      FindingFor(path, Present(s1, d1)).value.reason == SuffixReason(SuffixOf(path))
  {
  }

  /** Any letter case of a sensitive extension is caught: `CERT.PEM` as `cert.pem`. */
  lemma SensitiveSuffixAnyCase(p1: string, p2: string)
    requires Suffix(PathName(p2)) == Upper(Suffix(PathName(p1)))
    ensures SuffixOf(p1) == SuffixOf(p2)
  {
    LowerOfUpper(Suffix(PathName(p1)));
  }

  /** A file over 2,000,000 bytes with an ordinary name is never reported, whatever it
      holds. */
  lemma LargeFileNotScanned(path: string, size: nat, data: Option<seq<byte>>)
    requires NameOf(path) !in ForbiddenNames && SuffixOf(path) !in ForbiddenSuffixes
    requires size > SizeLimit
    ensures FindingFor(path, Present(Some(size), data)).None?
  {
  }

  /** For a small readable file with an ordinary name, the finding names the first marker
      of the list that occurs in it, so a file holding both markers is reported once,
      for the first; a file with no marker gives nothing. */
  lemma FirstMarkerWins(path: string, size: nat, data: seq<byte>)
    requires NameOf(path) !in ForbiddenNames && SuffixOf(path) !in ForbiddenSuffixes
    requires size <= SizeLimit
    ensures ContainsBytes(data, Marker(0)) ==>
      FindingFor(path, Present(Some(size), Some(data))) == Some(SecretFinding(RelPath(path), MarkerReason(MarkerTexts[0])))
    ensures !ContainsBytes(data, Marker(0)) && ContainsBytes(data, Marker(1)) ==>
      FindingFor(path, Present(Some(size), Some(data))) == Some(SecretFinding(RelPath(path), MarkerReason(MarkerTexts[1])))
    ensures !ContainsBytes(data, Marker(0)) && !ContainsBytes(data, Marker(1)) ==>
      FindingFor(path, Present(Some(size), Some(data))).None?
  {
  }

  /** Each reported file is reported once, under its listed path, and files come in
      listing order: the findings of a listing extended by one path are the old
      findings followed by at most one for the new path. */
  lemma ScanAppend(paths: seq<string>, p: string, fs: string -> FileState)
    ensures Scan(paths + [p], fs) == Scan(paths, fs) + AsSeq(FindingFor(p, fs(p)))
    ensures FindingFor(p, fs(p)).Some? ==> FindingFor(p, fs(p)).value.path == RelPath(p)
  {
    assert (paths + [p])[..|paths|] == paths;
  }

  /** The listed paths as they appear in findings. */
  function RelPaths(paths: seq<string>): (r: seq<string>)
    ensures |r| == |paths| && forall j | 0 <= j < |paths| :: r[j] == RelPath(paths[j])
  {
    seq(|paths|, j requires 0 <= j < |paths| => RelPath(paths[j]))
  }

  /** Every finding is for some listed path. */
  lemma {:induction false} FindingsAreListed(paths: seq<string>, fs: string -> FileState)
    ensures forall k | 0 <= k < |Scan(paths, fs)| :: Scan(paths, fs)[k].path in RelPaths(paths)
  {
    if paths != [] {
      var front := paths[..|paths| - 1];
      var p := paths[|paths| - 1];
      FindingsAreListed(front, fs);
      var rp := RelPaths(paths);
      var rf := RelPaths(front);
      assert forall j | 0 <= j < |rf| :: rf[j] == rp[j];
      assert rp[|paths| - 1] == RelPath(p);
      var r := Scan(paths, fs);
      var sf := Scan(front, fs);
      var last := FindingFor(p, fs(p));
      assert r == sf + AsSeq(last);
      forall k | 0 <= k < |r|
        ensures r[k].path in rp
      {
        if k < |sf| {
          assert r[k] == sf[k];
          var x := r[k].path;
          assert x in rf;
          var j :| 0 <= j < |rf| && rf[j] == x;
          assert rp[j] == x;
        } else {
          assert r[k] == last.value;
        }
      }
    }
  }

  // ---------------------------------------------------------------------------
  // `main`

  const FailedHeader: string := "Secret scan FAILED: posibles secretos/" + "artefactos sensibles en git.\n"

  function FindingLine(f: SecretFinding): string {
    "- " + f.path + ": " + f.reason + "\n"
  }

  function FindingLines(fs: seq<SecretFinding>): string {
    if fs == [] then "" else FindingLines(fs[..|fs| - 1]) + FindingLine(fs[|fs| - 1])
  }

  /** How `main` ends: a status and what it wrote to stderr, or an uncaught exception of
      the listing (status 1, with a traceback). */
  datatype ScanExit = Exit(status: int, stderr: string) | Raised(error: ListingError)

  function Script(l: Listing, fs: string -> FileState): (r: ScanExit)
    ensures r.Raised? <==> TrackedPaths(l).Err?
    ensures r.Raised? ==> r.error == TrackedPaths(l).error
    ensures r.Exit? ==> (r.status == 0 <==> ScanTrackedFiles(l, fs).value == [])
    ensures r.Exit? ==> (r.status == 0 || r.status == 2)
    ensures r.Exit? && r.status == 0 ==> r.stderr == ""
    ensures r.Exit? && r.status == 2 ==> StartsWith(r.stderr, FailedHeader)
  {
    match ScanTrackedFiles(l, fs)
    case Err(e) => Raised(e)
    case Ok(findings) =>
      if findings == [] then Exit(0, "")
      else Exit(2, FailedHeader + FindingLines(findings))
  }

  /** With git printing these paths, the scan passes exactly when none of them is
      reported. */
  lemma MainPassesIff(paths: seq<string>, fs: string -> FileState)
    requires forall k | 0 <= k < |paths| :: paths[k] != [] && '\0' !in paths[k]
    ensures Script(Output(LsFilesOutput(paths)), fs) == (if Scan(paths, fs) == [] then Exit(0, "") else Exit(2, FailedHeader + FindingLines(Scan(paths, fs))))
    ensures Script(Output(LsFilesOutput(paths)), fs).status == 0 <==>
      forall k | 0 <= k < |paths| :: FindingFor(paths[k], fs(paths[k])).None?
  {
    ListingRoundTrip(paths);
    ScanEmptyIff(paths, fs);
  }

  /** No finding at all exactly when no path gives one. */
  lemma ScanEmptyIff(paths: seq<string>, fs: string -> FileState)
    ensures Scan(paths, fs) == [] <==> forall k | 0 <= k < |paths| :: FindingFor(paths[k], fs(paths[k])).None?
  {
    ScanWithEmptyIff(paths, FindingOf(fs));
  }

  lemma {:induction false} ScanWithEmptyIff(paths: seq<string>, finding: string -> Option<SecretFinding>)
    ensures ScanWith(paths, finding) == [] <==> forall k | 0 <= k < |paths| :: finding(paths[k]).None?
  {
    if paths != [] {
      var front := paths[..|paths| - 1];
      ScanWithEmptyIff(front, finding);
      assert forall k | 0 <= k < |front| :: front[k] == paths[k];
    }
  }
}
