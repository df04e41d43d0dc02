/** The package version and its parsed form. */
module Version {
  import opened Common
  import Semver

  /** `__version__` (managed by the release tooling). */
  const PackageVersion: string := "0.2.0"

  /** `_parse_semver` of the package: the SemVer parse, raising ValueError (an `Err`
      carrying the offending text) when the pattern does not match. */
  function ParseVersion(v: string): (r: Result<Semver.Triple, string>)
    ensures r.Err? ==> r.error == v
    ensures r.Ok? <==> Semver.ParseSemver(v).Some?
    ensures r.Ok? ==> r.value == Semver.ParseSemver(v).value
  {
    match Semver.ParseSemver(v)
    case None => Err(v)
    case Some(t) => Ok(t)
  }

  /** `__version_info__` */
  function VersionInfo(): (r: Semver.Triple)
    ensures r == Semver.Triple(0, 2, 0)
  {
    PackageVersionParses();
    ParseVersion(PackageVersion).value
  }

  /** The package version is the SemVer text of 0.2.0. */
  lemma PackageVersionParses()
    ensures Semver.Format(Semver.Triple(0, 2, 0)) == PackageVersion
    ensures Semver.ParseSemver(PackageVersion) == Some(Semver.Triple(0, 2, 0))
  {
    assert Semver.Format(Semver.Triple(0, 2, 0)) == PackageVersion;
    Semver.ParseFormat(Semver.Triple(0, 2, 0));
  }
}
