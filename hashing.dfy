/** The stable JSON hash that derives record ids and the run id. SHA-256 itself is not
    modelled: callers pass the digest function, and the model only relies on it
    returning 64 characters. */
module Hashing {
  import opened PyStr
  import opened Json

  /** A hex digest as `hexdigest()` returns it. */
  type Digest = s: string | |s| == 64
    witness "0000000000000000000000000000000000000000000000000000000000000000"

  /** `sha256_json_estable`: the digest of the canonical encoding without newline. */
  function Sha256JsonEstable(sha256: string -> Digest, v: JsonValue): (r: Digest)
    ensures r == sha256(StableHashText(v))
  {
    sha256(Encode(v))
  }

  /** The first `n` characters of a digest; `n` when it is at most 64. */
  function DigestPrefix(d: Digest, n: nat): (r: string)
    requires n <= 64
    ensures |r| == n && r == d[..n]
  {
    Take(d, n)
  }
}
