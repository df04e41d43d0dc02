/** The publish guard run on a release tag: the tag must be `vX.Y.Z`, name the package's
    version, have a changelog entry, and sit on the commit that changes both the version
    file and the changelog. The checks run in that order and the first that fails
    decides the exit status. The arguments, the environment, the package version, the
    changelog's text (`None` when CHANGELOG.md is missing) and the output of `git show`
    are inputs. */
module VerifyReleaseTag {
  import opened Common
  import opened PyStr
  import Json
  import Semver
  import Version
  import BumpChangelog

  // ---------------------------------------------------------------------------
  // The tag

  /** A value Python treats as true: present and not empty. */
  predicate Truthy(o: Option<string>) {
    o.Some? && o.value != []
  }

  /** `argv[1]` if there is one and it is not empty, else `GITHUB_REF_NAME or TAG_NAME`;
      `None` when the tag is still missing or empty. */
  function SelectTag(argv: seq<string>, githubRefName: Option<string>, tagName: Option<string>): (r: Option<string>)
    ensures r.Some? ==> r.value != []
    ensures |argv| >= 2 && argv[1] != [] ==> r == Some(argv[1])
    ensures !(|argv| >= 2 && argv[1] != []) && Truthy(githubRefName) ==> r == githubRefName
    ensures !(|argv| >= 2 && argv[1] != []) && !Truthy(githubRefName) ==> (r.Some? <==> Truthy(tagName)) && (r.Some? ==> r == tagName)
  {
    var fromArg := if |argv| >= 2 then Some(argv[1]) else None;
    if Truthy(fromArg) then fromArg
    else
      var fromEnv := if Truthy(githubRefName) then githubRefName else tagName;
      if Truthy(fromEnv) then fromEnv else None
  }

  /** Text of the form `\d+\.\d+\.\d+` ends in a digit, so never in a newline. */
  lemma DottedTripleEndsInDigit(s: string)
    requires Semver.IsDottedTriple(s)
    ensures s != [] && IsDigit(s[|s| - 1])
  {
    var parts := SplitChar(s, '.');
    Semver.JoinThree(parts, ".");
    var p2 := parts[2];
    assert p2 != [] && IsDigit(p2[|p2| - 1]);
    assert s == (parts[0] + "." + parts[1] + ".") + p2;
  }

  /** `_TAG_RE.match(tag).group("version")`: the tag must be `v` and then three runs of
      digits separated by dots; Python's `$` also lets one final `"\n"` follow. */
  function TagVersion(tag: string): (r: Option<string>)
    ensures r.Some? ==> Semver.IsDottedTriple(r.value)
    ensures r.Some? ==> tag == "v" + r.value || tag == "v" + r.value + "\n"
  {
    if tag == [] || tag[0] != 'v' then None
    else
      var body := Semver.DollarBody(tag[1..]);
      assert tag == "v" + tag[1..];
      if Semver.IsDottedTriple(body) then Some(body) else None
  }

  /** A tag `v` + version is accepted exactly when the version has the form
      `\d+\.\d+\.\d+`, with or without one trailing newline, and what is read from it
      is the version without that newline. */
  lemma TagVersionIff(v: string)
    ensures TagVersion("v" + v).Some? <==> Semver.IsDottedTriple(Semver.DollarBody(v))
    ensures TagVersion("v" + v).Some? ==> TagVersion("v" + v).value == Semver.DollarBody(v)
  {
    assert ("v" + v)[1..] == v;
  }

  /** A version of that form is read back from its tag, with or without the newline. */
  lemma TagOfDottedTriple(v: string)
    requires Semver.IsDottedTriple(v)
    ensures TagVersion("v" + v) == Some(v) && TagVersion("v" + v + "\n") == Some(v)
  {
    DottedTripleEndsInDigit(v);
    assert Semver.DollarBody(v) == v;
    assert Semver.DollarBody(v + "\n") == v by {
      assert (v + "\n")[..|v|] == v;
    }
    TagVersionIff(v);
    TagVersionIff(v + "\n");
    assert "v" + v + "\n" == "v" + (v + "\n");
  }

  /** Every version of the package's form makes a valid tag. */
  lemma TagOfFormat(t: Semver.Triple)
    ensures TagVersion("v" + Semver.Format(t)) == Some(Semver.Format(t))
    ensures TagVersion("v" + Semver.Format(t) + "\n") == Some(Semver.Format(t))
  {
    BumpChangelog.MainAcceptsEveryTriple(t);
    TagOfDottedTriple(Semver.Format(t));
  }

  // ---------------------------------------------------------------------------
  // The tagged commit

  /** `_changed_files_in_tag_commit`: the non-blank stripped lines of the stripped
      output of `git show -1 --name-only --pretty=`. */
  function ChangedFiles(out: string): (r: set<string>)
    ensures forall f | f in r :: f != [] && f == Strip(f)
  {
    var lines := SplitLines(Strip(out));
    set ln | ln in lines && Strip(ln) != [] :: StripIdempotent(ln); Strip(ln)
  }

  lemma StripIdempotent(s: string)
    ensures Strip(Strip(s)) == Strip(s)
  {
    var r := Strip(s);
    StripShape(s);
    if r != [] {
      assert LStrip(r) == r;
      assert RStrip(r) == r;
    }
  }

  const VersionFile: string := "src/conciliador_bancario/version.py"
  const ChangelogFile: string := "CHANGELOG.md"

  function Required(): set<string> {
    {VersionFile, ChangelogFile}
  }

  /** A file named on a line of the output counts as changed, whatever spaces surround
      it. */
  lemma ChangedFileListed(out: string, ln: string)
    requires ln in SplitLines(Strip(out)) && Strip(ln) != []
    ensures Strip(ln) in ChangedFiles(out)
  {
  }

  // ---------------------------------------------------------------------------
  // Messages written to stderr

  const MissingTagMessage: string :=
    "verify_release_tag: missing tag " + "(arg1 or env GITHUB_REF_NAME/TAG_NAME)\n"

  function InvalidTagMessage(tag: string): string {
    "verify_release_tag: invalid tag " + Repr(tag) + " (expected vX.Y.Z)\n"
  }

  function MismatchMessage(tag: string, core: string): string {
    "verify_release_tag: version mismatch\n"
    + "- tag: " + tag + "\n"
    + "- src/conciliador_bancario/version.py: " + core + "\n"
    + "Refuse to publish: tags must be created " + "from the release commit that bumps version.py.\n"
  }

  function MissingEntryMessage(version: string): string {
    "verify_release_tag: CHANGELOG.md missing entry for [" + version + "]\n"
  }

  /** Python's `repr` of a list of strings. */
  function ListRepr(xs: seq<string>): string {
    "[" + Join(seq(|xs|, k requires 0 <= k < |xs| => Repr(xs[k])), ", ") + "]"
  }

  function NotUpdatedMessage(changed: set<string>): string {
    "verify_release_tag: tag commit does not update " + "required release artifacts\n"
    + "- required: " + ListRepr(Json.SortedKeys(Required())) + "\n"
    + "- changed:  " + ListRepr(Json.SortedKeys(changed)) + "\n"
    + "Refuse to publish: tags must be created from the release commit "
    + "that bumps version.py and updates CHANGELOG.md.\n"
  }

  // ---------------------------------------------------------------------------
  // `main`

  /** How `main` ends: a status and what it wrote to stderr, CHANGELOG.md missing
      (`FileNotFoundError`, uncaught: status 1), or `git show` failing
      (`CalledProcessError`, uncaught: status 1). */
  datatype TagExit = Exit(status: int, stderr: string) | NoChangelog | GitFailed

  /** `main`, with `gitShow` the output of `git show` (`None` when it fails). */
  function Script(argv: seq<string>, githubRefName: Option<string>, tagName: Option<string>, coreVersion: string, changelog: Option<string>, gitShow: Option<string>): (r: TagExit)
    ensures r.Exit? ==> r.status in {0, 1, 2}
    ensures r.Exit? && r.status == 0 ==> r.stderr == ""
  {
    match SelectTag(argv, githubRefName, tagName)
    case None => Exit(2, MissingTagMessage)
    case Some(tag) =>
      match TagVersion(tag)
      case None => Exit(2, InvalidTagMessage(tag))
      case Some(expected) => ReleaseChecks(tag, expected, coreVersion, changelog, gitShow)
  }

  /** The checks after the tag is read: the version, the changelog entry, the files the
      tagged commit changed. None of them is a usage error. */
  function ReleaseChecks(tag: string, expected: string, coreVersion: string, changelog: Option<string>, gitShow: Option<string>): (r: TagExit)
    ensures r.Exit? ==> r.status in {0, 1}
    ensures r.Exit? && r.status == 0 ==> r.stderr == ""
  {
    if coreVersion != expected then Exit(1, MismatchMessage(tag, coreVersion))
    else if changelog.None? then NoChangelog
    else if !Contains(changelog.value, BumpChangelog.VersionMarker(expected)) then Exit(1, MissingEntryMessage(expected))
    else match gitShow
      case None => GitFailed
      case Some(out) =>
        var changed := ChangedFiles(out);
        if !(Required() <= changed) then Exit(1, NotUpdatedMessage(changed))
        else Exit(0, "")
  }

  /** Status 2 exactly when there is no tag or it is not of the form `vX.Y.Z`. */
  lemma UsageErrorIff(argv: seq<string>, g: Option<string>, t: Option<string>, core: string, changelog: Option<string>, show: Option<string>)
    ensures (Script(argv, g, t, core, changelog, show).Exit? && Script(argv, g, t, core, changelog, show).status == 2) <==>
      (SelectTag(argv, g, t).None? || TagVersion(SelectTag(argv, g, t).value).None?)
  {
  }

  /** The guard passes exactly when the tag names the package version, the changelog
      has its entry, and the tagged commit changed both release files. */
  lemma PassesIff(argv: seq<string>, g: Option<string>, t: Option<string>, core: string, changelog: Option<string>, show: Option<string>)
    ensures Script(argv, g, t, core, changelog, show) == Exit(0, "") <==>
      (SelectTag(argv, g, t).Some? && TagVersion(SelectTag(argv, g, t).value) == Some(core)
       && changelog.Some? && Contains(changelog.value, BumpChangelog.VersionMarker(core))
       && show.Some? && VersionFile in ChangedFiles(show.value) && ChangelogFile in ChangedFiles(show.value))
  {
    var tag := SelectTag(argv, g, t);
    if tag.Some? && TagVersion(tag.value).Some? {
      ChecksPassIff(tag.value, TagVersion(tag.value).value, core, changelog, show);
    }
  }

  /** Once the tag is read, the guard passes exactly when it names the package version,
      the changelog has its entry and the commit changed both release files. */
  lemma ChecksPassIff(tag: string, expected: string, core: string, changelog: Option<string>, show: Option<string>)
    ensures ReleaseChecks(tag, expected, core, changelog, show) == Exit(0, "") <==>
      (expected == core && changelog.Some? && Contains(changelog.value, BumpChangelog.VersionMarker(core))
       && show.Some? && VersionFile in ChangedFiles(show.value) && ChangelogFile in ChangedFiles(show.value))
  {
    if core == expected && changelog.Some? && Contains(changelog.value, BumpChangelog.VersionMarker(expected)) && show.Some? {
      var changed := ChangedFiles(show.value);
      assert Required() <= changed <==> VersionFile in changed && ChangelogFile in changed;
    }
  }

  /** The first failing check decides: a tag naming another version is refused whatever
      the changelog and the commit hold. */
  lemma MismatchFirst(argv: seq<string>, g: Option<string>, t: Option<string>, core: string, c1: Option<string>, c2: Option<string>, s1: Option<string>, s2: Option<string>)
    requires SelectTag(argv, g, t).Some? && TagVersion(SelectTag(argv, g, t).value).Some?
    requires TagVersion(SelectTag(argv, g, t).value).value != core
    ensures Script(argv, g, t, core, c1, s1) == Script(argv, g, t, core, c2, s2) == Exit(1, MismatchMessage(SelectTag(argv, g, t).value, core))
  {
  }

  /** A missing changelog entry is refused whatever the commit holds. */
  lemma MissingEntryNext(argv: seq<string>, g: Option<string>, t: Option<string>, core: string, c: string, s1: Option<string>, s2: Option<string>)
    requires SelectTag(argv, g, t).Some? && TagVersion(SelectTag(argv, g, t).value) == Some(core)
    requires !Contains(c, BumpChangelog.VersionMarker(core))
    ensures Script(argv, g, t, core, Some(c), s1) == Script(argv, g, t, core, Some(c), s2) == Exit(1, MissingEntryMessage(core))
  {
  }

  /** Once the versions agree, a missing CHANGELOG.md ends the script with the uncaught
      `FileNotFoundError`, before `git show` is read. */
  lemma MissingChangelogRaises(argv: seq<string>, g: Option<string>, t: Option<string>, core: string, s: Option<string>)
    requires SelectTag(argv, g, t).Some? && TagVersion(SelectTag(argv, g, t).value) == Some(core)
    ensures Script(argv, g, t, core, None, s) == NoChangelog
  {
  }

  /** A changelog just bumped to a version passes the changelog check for that
      version's tag. */
  lemma BumpedChangelogHasEntry(text: string, version: string, date: string)
    requires BumpChangelog.Bump(text, version, date).Ok?
    ensures Contains(BumpChangelog.Bump(text, version, date).value, BumpChangelog.VersionMarker(version))
  {
    BumpChangelog.BumpTwiceRefused(text, version, date, date);
  }

  /** The package's own version tag gets past the tag checks. */
  lemma PackageTagAccepted()
    ensures TagVersion("v" + Version.PackageVersion) == Some(Version.PackageVersion)
  {
    var t := Semver.Triple(0, 2, 0);
    Version.PackageVersionParses();
    TagOfFormat(t);
  }
}
