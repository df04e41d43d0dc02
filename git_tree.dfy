/** `_git_ls_files`, which the secret scan and the boundary check share word for word:
    the tracked paths of the working tree, from the NUL-separated output of
    `git ls-files -z`. */
module GitTree {
  import opened Common
  import opened PyStr

  /** What listing the tracked files meets: no `.git` in the root, no `git` on the PATH,
      `git ls-files` exiting with a non-zero status, or the output (decoded text) of a
      successful run. */
  datatype Listing = NoGitDir | NoGitBinary | LsFilesFailed(returncode: int) | Output(out: string)

  /** What `_git_ls_files` raises: its own `RuntimeError`, or the `CalledProcessError` of
      `check_output`, which it does not catch. */
  datatype ListingError = RuntimeError(message: string) | CalledProcessError(returncode: int)

  const NoGitDirMessage: string :=
    "No se encontro .git; este check esta pensado " + "para correr en un working tree."
  const NoGitBinaryMessage: string :=
    "git no esta disponible en PATH; no se puede " + "listar archivos trackeados."

  /** The parts that are not empty (`if not chunk: continue`), in order. */
  function NonEmpty(parts: seq<string>): (r: seq<string>)
    ensures |r| <= |parts|
    ensures forall k | 0 <= k < |r| :: r[k] != [] && r[k] in parts
    ensures forall k | 0 <= k < |parts| :: parts[k] != [] ==> parts[k] in r
  {
    if parts == [] then []
    else
      var rest := NonEmpty(parts[1..]);
      assert forall k | 1 <= k < |parts| :: parts[k] == parts[1..][k - 1];
      (if parts[0] == [] then [] else [parts[0]]) + rest
  }

  /** The tracked paths, or the exception listing them raises. */
  function TrackedPaths(l: Listing): (r: Result<seq<string>, ListingError>)
    ensures l.NoGitDir? ==> r == Err(RuntimeError(NoGitDirMessage))
    ensures l.NoGitBinary? ==> r == Err(RuntimeError(NoGitBinaryMessage))
    ensures l.LsFilesFailed? ==> r == Err(CalledProcessError(l.returncode))
    ensures l.Output? ==> r.Ok? && forall k | 0 <= k < |r.value| :: r.value[k] != [] && '\0' !in r.value[k]
  {
    match l
    case NoGitDir => Err(RuntimeError(NoGitDirMessage))
    case NoGitBinary => Err(RuntimeError(NoGitBinaryMessage))
    case LsFilesFailed(code) => Err(CalledProcessError(code))
    case Output(out) => Ok(NonEmpty(SplitChar(out, '\0')))
  }

  /** What `git ls-files -z` prints for these paths: each followed by a NUL. */
  function LsFilesOutput(paths: seq<string>): string {
    if paths == [] then "" else paths[0] + "\0" + LsFilesOutput(paths[1..])
  }

  /** Listing gives back exactly the paths git printed, in its order. */
  lemma ListingRoundTrip(paths: seq<string>)
    requires forall k | 0 <= k < |paths| :: paths[k] != [] && '\0' !in paths[k]
    ensures TrackedPaths(Output(LsFilesOutput(paths))) == Ok(paths)
  {
    SplitListing(paths);
  }

  lemma {:induction false} SplitListing(paths: seq<string>)
    requires forall k | 0 <= k < |paths| :: paths[k] != [] && '\0' !in paths[k]
    ensures NonEmpty(SplitChar(LsFilesOutput(paths), '\0')) == paths
  {
    if paths != [] {
      var rest := paths[1..];
      assert forall k | 0 <= k < |rest| :: rest[k] == paths[k + 1];
      SplitListing(rest);
      var tail := SplitChar(LsFilesOutput(rest), '\0');
      SplitCharCons(paths[0], '\0', LsFilesOutput(rest));
      assert paths[0] + "\0" + LsFilesOutput(rest) == paths[0] + ['\0'] + LsFilesOutput(rest);
      NonEmptyCons(paths[0], tail);
      assert paths == [paths[0]] + rest;
    } else {
      assert SplitChar("", '\0') == [""];
      NonEmptyCons("", []);
    }
  }

  lemma NonEmptyCons(x: string, xs: seq<string>)
    ensures NonEmpty([x] + xs) == (if x == [] then [] else [x]) + NonEmpty(xs)
  {
    assert ([x] + xs)[1..] == xs;
  }

  /** `str(path.relative_to(root)).replace("\\", "/")` for a path git lists relative to
      the root. */
  function RelPath(chunk: string): (r: string)
    ensures '\\' !in r
  {
    ReplaceCharRemoves(chunk, '\\', "/");
    ReplaceChar(chunk, '\\', "/")
  }
}
