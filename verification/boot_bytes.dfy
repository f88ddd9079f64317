/** Bytes, sectors and the rounding that the boot programs do. */
module BootBytes {

  newtype Byte = x: int | 0 <= x < 256

  const SECTOR_SIZE: nat := 512

  function Zeros(n: nat): (z: seq<Byte>)
    ensures |z| == n && forall k :: 0 <= k < n ==> z[k] == 0
  {
    seq(n, _ => 0)
  }

  /** `m` with the bytes from `at` on replaced by `b`. */
  function Splice(m: seq<Byte>, at: nat, b: seq<Byte>): (r: seq<Byte>)
    requires at + |b| <= |m|
    ensures |r| == |m|
    ensures r[at..at + |b|] == b
    ensures forall k :: 0 <= k < at ==> r[k] == m[k]
    ensures forall k :: at + |b| <= k < |m| ==> r[k] == m[k]
  {
    m[..at] + b + m[at + |b|..]
  }

  lemma SpliceTwice(m: seq<Byte>, at: nat, a: seq<Byte>, b: seq<Byte>)
    requires at + |a| + |b| <= |m|
    ensures Splice(Splice(m, at, a), at + |a|, b) == Splice(m, at, a + b)
  {
  }
}
