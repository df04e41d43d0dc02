/** Byte strings (`bytes`) and the `sub in data` test the release tools apply to the
    files they scan. */
module Bytes {
  import opened Common

  newtype byte = x: int | 0 <= x < 256

  predicate IsAscii(s: string) {
    forall i | 0 <= i < |s| :: s[i] < 128 as char
  }

  /** `s.encode("utf-8")` for ASCII text: one byte per character, with its code. */
  function Ascii(s: string): (r: seq<byte>)
    requires IsAscii(s)
    ensures |r| == |s| && forall i | 0 <= i < |s| :: r[i] as int == s[i] as int
  {
    seq(|s|, i requires 0 <= i < |s| => s[i] as int as byte)
  }

  predicate BytesAt(data: seq<byte>, sub: seq<byte>, i: nat) {
    i + |sub| <= |data| && data[i..i + |sub|] == sub
  }

  /** The first position at or after `from` where `sub` occurs in `data`. */
  function FindBytes(data: seq<byte>, sub: seq<byte>, from: nat): (r: Option<nat>)
    ensures r.Some? ==> from <= r.value && BytesAt(data, sub, r.value)
    ensures forall j: nat | from <= j && (r.None? || j < r.value) :: !BytesAt(data, sub, j)
    decreases |data| - from
  {
    if from + |sub| > |data| then None
    else if data[from..from + |sub|] == sub then Some(from)
    else FindBytes(data, sub, from + 1)
  }

  /** `sub in data` */
  predicate ContainsBytes(data: seq<byte>, sub: seq<byte>) {
    FindBytes(data, sub, 0).Some?
  }

  /** `sub` is in `data` exactly when it occurs at some position. */
  lemma ContainsBytesAt(data: seq<byte>, sub: seq<byte>, i: nat)
    requires BytesAt(data, sub, i)
    ensures ContainsBytes(data, sub)
  {
  }

  /** `sub` is in `a + sub + b`. */
  lemma ContainsBytesMiddle(a: seq<byte>, sub: seq<byte>, b: seq<byte>)
    ensures ContainsBytes(a + sub + b, sub)
  {
    assert (a + sub + b)[|a|..|a| + |sub|] == sub;
    ContainsBytesAt(a + sub + b, sub, |a|);
  }
}
