/** Bytes in memory: little-endian integers and copies into fixed buffers. */
module Bytes {
  import opened Bits

  function Pow256(k: nat): (r: nat)
    ensures r > 0
  {
    if k == 0 then 1 else 256 * Pow256(k - 1)
  }

  /** The k low bytes of v, low byte first. */
  function LE(v: nat, k: nat): (r: seq<byte>)
    ensures |r| == k
  {
    if k == 0 then [] else [v % 256] + LE(v / 256, k - 1)
  }

  function FromLE(s: seq<byte>): (r: nat) {
    if s == [] then 0 else s[0] + 256 * FromLE(s[1..])
  }

  lemma {:induction false} FromLEBound(s: seq<byte>)
    ensures FromLE(s) < Pow256(|s|)
  {
    if s != [] {
      FromLEBound(s[1..]);
    }
  }

  lemma {:induction false} FromLEOfLE(v: nat, k: nat)
    requires v < Pow256(k)
    ensures FromLE(LE(v, k)) == v
  {
    if k > 0 {
      FromLEOfLE(v / 256, k - 1);
      assert LE(v, k)[1..] == LE(v / 256, k - 1);
    }
  }

  /** A byte string behind its 32-bit length. */
  function Frame(s: seq<byte>): (r: seq<byte>)
    ensures |r| == 4 + |s|
  {
    LE(|s|, 4) + s
  }

  lemma Unframe(s: seq<byte>, rest: seq<byte>)
    requires |s| < WORD32
    ensures var buf := Frame(s) + rest;
      FromLE(buf[..4]) == |s| && buf[4..4 + |s|] == s && buf[4 + |s|..] == rest
  {
    var buf := Frame(s) + rest;
    assert buf[..4] == LE(|s|, 4);
    Pow256Values();
    FromLEOfLE(|s|, 4);
  }

  lemma Pow256Values()
    ensures Pow256(4) == 0x1_0000_0000 && Pow256(8) == 0x1_0000_0000_0000_0000
  {
    assert Pow256(2) == 0x1_0000;
    assert Pow256(4) == 0x1_0000_0000;
    assert Pow256(6) == 0x1_0000_0000_0000;
  }

  /** memcpy behind the first `used` bytes of a buffer. */
  method Append(dst: array<byte>, used: nat, src: seq<byte>)
    requires used + |src| <= dst.Length
    modifies dst
    ensures dst[..used + |src|] == old(dst[..used]) + src
    ensures dst[used + |src|..] == old(dst[used + |src|..])
  {
    forall i | 0 <= i < |src| {
      dst[used + i] := src[i];
    }
  }
}
