/** Bytes as the C programs handle them. */
module Bytes {
  type byte = x: int | 0 <= x < 256

  function Zeros(n: nat): (z: seq<byte>)
    ensures |z| == n
  {
    seq(n, _ => 0)
  }

  /** htonl. */
  function BigEndian(v: nat): (b: seq<byte>)
    requires v < 0x1_0000_0000
    ensures |b| == 4
  {
    [v / 0x100 / 0x100 / 0x100, v / 0x100 / 0x100 % 0x100, v / 0x100 % 0x100, v % 0x100]
  }

  function Value(b: seq<byte>): nat
    requires |b| == 4
  {
    (b[0] as int) * 0x100_0000 + (b[1] as int) * 0x1_0000 + (b[2] as int) * 0x100 + b[3] as int
  }

  lemma ValueOfBigEndian(v: nat)
    requires v < 0x1_0000_0000
    ensures Value(BigEndian(v)) == v
  {
  }

  // ------------------------------------------------------------------ memcpy

  /** s with b written over it from byte `at` on. */
  function Patch(s: seq<byte>, at: nat, b: seq<byte>): (p: seq<byte>)
    requires at + |b| <= |s|
    ensures |p| == |s|
  {
    s[..at] + b + s[at + |b|..]
  }

  lemma PatchAdjacent(s: seq<byte>, at: nat, b: seq<byte>, c: seq<byte>)
    requires at + |b| + |c| <= |s|
    ensures Patch(Patch(s, at, b), at + |b|, c) == Patch(s, at, b + c)
  {
  }

  lemma PatchInside(s: seq<byte>, at: nat, b: seq<byte>, x: nat, c: seq<byte>)
    requires at + |b| <= |s| && x + |c| <= |b|
    ensures Patch(Patch(s, at, b), at + x, c) == Patch(s, at, Patch(b, x, c))
  {
  }

  lemma PatchKeeps(s: seq<byte>, at: nat, b: seq<byte>, lo: nat, hi: nat)
    requires at + |b| <= |s| && lo <= hi <= |s| && (hi <= at || at + |b| <= lo)
    ensures Patch(s, at, b)[lo..hi] == s[lo..hi]
  {
  }

  lemma PatchFromPrefix(now: seq<byte>, was: seq<byte>, at: nat, b: seq<byte>)
    requires at + |b| <= |was| == |now| && now[..at + |b|] == was[..at] + b
    requires forall k :: at + |b| <= k < |now| ==> now[k] == was[k]
    ensures now == Patch(was, at, b)
  {
    assert now == now[..at + |b|] + now[at + |b|..];
  }

  lemma PatchHits(s: seq<byte>, at: nat, b: seq<byte>)
    requires at + |b| <= |s|
    ensures Patch(s, at, b)[at..at + |b|] == b
  {
  }
}
