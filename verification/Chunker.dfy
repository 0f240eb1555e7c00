/** Content-defined chunking: the cut-point search, and the windowed file reader around it. */
module Chunker {
  import opened Common
  import opened Bits
  import opened Gear

  /** The chunker's settings, as checked and derived at start-up. */
  datatype Params = Params(gear: Table, min: nat, normal: nat, max: nat, maskS: nat, maskL: nat)

  predicate Valid(p: Params) {
    p.min < p.max && p.normal <= p.max && p.max < WORD32
  }

  // ---------- settings ----------

  function DivCeil(a: nat, b: nat): nat
    requires b > 0
  {
    if a % b == 0 then a / b else a / b + 1
  }

  /** 32-bit arithmetic. */
  function CalNormalSize(min: nat, av: nat, max: nat): nat
    requires min < WORD32 && av < WORD32 && max < WORD32
  {
    var off0 := (min + DivCeil(min, 2)) % WORD32;
    var off := if off0 > av then av else off0;
    var diff := av - off;
    if diff > max then max else diff
  }

  function CompareLimit(input: nat, lower: nat, upper: nat): nat {
    if input <= lower then lower else if input >= upper then upper else input
  }

  function GenerateFastCDCMask(bits: nat): nat {
    Pow2(CompareLimit(bits, 1, 31)) - 1
  }

  /** The floor of the binary logarithm. */
  function Log2(n: nat): (r: nat)
    requires n > 0
    ensures Pow2(r) <= n < Pow2(r + 1)
  {
    if n == 1 then assert Pow2(1) == 2; 0 else 1 + Log2(n / 2)
  }

  /** round(log2(n)): up exactly when n is above the geometric mean of the powers around it. */
  function RoundLog2(n: nat): (r: nat)
    requires n > 0
    ensures r == Log2(n) || r == Log2(n) + 1
  {
    if n * n < Pow2(2 * Log2(n) + 1) then Log2(n) else Log2(n) + 1
  }

  /** The numbers of bits are 32-bit words: one less than none is 2^32 - 1. */
  function MakeParams(gear: Table, min: nat, avg: nat, max: nat): Params
    requires min < avg < max < WORD32
  {
    var bits := RoundLog2(avg);
    Params(gear, min, CalNormalSize(min, avg, max), max,
           GenerateFastCDCMask(bits + 1), GenerateFastCDCMask((bits + WORD32 - 1) % WORD32))
  }

  lemma DivisibleByLess(x: nat, big: nat, small: nat)
    requires small <= big && x % Pow2(big) == 0
    ensures x % Pow2(small) == 0
  {
    var d, q := Pow2(big - small), x / Pow2(big);
    Pow2Add(small, big - small);
    assert x == Pow2(big) * q;
    MulAssoc(Pow2(small), d, q);
    DivModUnique(x, Pow2(small), d * q, 0);
  }

  lemma MulAssoc(a: nat, b: nat, c: nat)
    ensures (a * b) * c == a * (b * c)
  {
  }

  lemma MaskTest(fp: nat, bits: nat)
    ensures And(fp, GenerateFastCDCMask(bits)) == 0 <==> fp % Pow2(CompareLimit(bits, 1, 31)) == 0
  {
    MaskIsMod(fp, CompareLimit(bits, 1, 31));
  }

  lemma BitsOf(avg: nat)
    requires 0 < avg < WORD32
    ensures RoundLog2(avg) <= 32 && (RoundLog2(avg) == 0 <==> avg == 1)
  {
    Pow2Values();
    if Log2(avg) >= 32 {
      Pow2Monotone(32, Log2(avg));
    }
    assert Pow2(1) == 2;
  }

  /** Every hash that passes the mask used before the normal size also passes the one used after it. */
  ghost predicate MasksNest(p: Params) {
    forall fp: nat :: And(fp, p.maskS) == 0 ==> And(fp, p.maskL) == 0
  }

  lemma BitsNest(fp: nat, bits: nat)
    requires bits >= 1 && And(fp, GenerateFastCDCMask(bits + 1)) == 0
    ensures And(fp, GenerateFastCDCMask(bits - 1)) == 0
  {
    MaskTest(fp, bits + 1);
    MaskTest(fp, bits - 1);
    DivisibleByLess(fp, CompareLimit(bits + 1, 1, 31), CompareLimit(bits - 1, 1, 31));
  }

  /** With an average of 1, the hash 2 passes the first mask, 1, and not the second, 2^31 - 1. */
  lemma TwoPassesOne()
    ensures And(2, GenerateFastCDCMask(1)) == 0 && And(2, GenerateFastCDCMask(WORD32 - 1)) != 0
  {
    MaskTest(2, 1);
    MaskTest(2, WORD32 - 1);
    Pow2Values();
    assert Pow2(1) == 2;
  }

  lemma NestIffBits(p: Params, bits: nat)
    requires bits <= 32 && p.maskS == GenerateFastCDCMask(bits + 1)
    requires p.maskL == GenerateFastCDCMask(if bits == 0 then WORD32 - 1 else bits - 1)
    ensures MasksNest(p) <==> bits >= 1
  {
    if bits >= 1 {
      forall fp: nat | And(fp, p.maskS) == 0
        ensures And(fp, p.maskL) == 0
      {
        BitsNest(fp, bits);
      }
    } else {
      TwoPassesOne();
    }
  }

  lemma WrapsBelow(bits: nat)
    requires bits <= 32
    ensures (bits + WORD32 - 1) % WORD32 == if bits == 0 then WORD32 - 1 else bits - 1
  {
  }

  /** Settings that pass the start-up checks are valid, and their masks nest if and only if the average is above 1. */
  lemma SettingsAreValid(gear: Table, min: nat, avg: nat, max: nat)
    requires min < avg < max < WORD32
    ensures var p := MakeParams(gear, min, avg, max);
      Valid(p) && p.normal <= avg && (MasksNest(p) <==> avg >= 2)
  {
    BitsOf(avg);
    WrapsBelow(RoundLog2(avg));
    NestIffBits(MakeParams(gear, min, avg, max), RoundLog2(avg));
  }

  /** What the average leaves once the minimum and half of it, rounded up, are taken off. */
  function IntendedNormal(min: nat, avg: nat): nat {
    var off := min + (min + 1) / 2;
    if off <= avg then avg - off else 0
  }

  /** The normal size is the intended one if and only if the sum taken off fits a 32-bit word. */
  lemma NormalSizeIff(min: nat, avg: nat, max: nat)
    requires min < avg < max < WORD32
    ensures CalNormalSize(min, avg, max) == IntendedNormal(min, avg) <==> min + (min + 1) / 2 < WORD32
  {
    var off := min + (min + 1) / 2;
    assert DivCeil(min, 2) == (min + 1) / 2;
    if off >= WORD32 {
      assert off % WORD32 == off - WORD32;
    }
  }

  /** The number of bits is the integer nearest to the binary logarithm of the average: 2^(bits - 1/2) <= avg and
      avg < 2^(bits + 1/2), squared. */
  lemma BitsAreNearest(avg: nat)
    requires avg > 0
    ensures var bits := RoundLog2(avg);
      avg * avg < Pow2(2 * bits + 1) && (bits >= 1 ==> Pow2(2 * bits - 1) <= avg * avg)
  {
    var f := Log2(avg);
    var lo, hi := Pow2(f), Pow2(f + 1);
    Pow2Add(f, f);
    Pow2Add(f + 1, f + 1);
    MulBoth(lo, avg, avg, hi);
    if f >= 1 {
      Pow2Monotone(2 * f - 1, 2 * f);
    }
    Pow2Monotone(2 * f + 2, 2 * f + 3);
  }

  lemma MulBoth(a: nat, b: nat, c: nat, d: nat)
    requires a <= b && c < d && b == c
    ensures a * a <= b * b && c * c < d * d
  {
    MulLe(a, a, b);
    MulLe(b, a, b);
    MulLe(c, c, d);
    MulLe(d, c, d);
    MulStrict(c, d);
  }

  lemma MulStrict(c: nat, d: nat)
    requires c < d
    ensures c * c < d * d
  {
    MulDist(d, c, d - c);
    MulLe(c, c, d);
  }

  /** The power of two whose multiples the masks let through, before and from the normal size on. */
  function Divisor(avg: nat, early: bool): nat
    requires 2 <= avg < WORD32
  {
    var bits := RoundLog2(avg);
    if early then Pow2(if bits + 1 > 31 then 31 else bits + 1) else Pow2(if bits <= 2 then 1 else bits - 1)
  }

  lemma LimitedBits(bits: nat)
    requires 1 <= bits <= 32
    ensures CompareLimit(bits + 1, 1, 31) == (if bits + 1 > 31 then 31 else bits + 1)
    ensures CompareLimit(bits - 1, 1, 31) == (if bits <= 2 then 1 else bits - 1)
  {
  }

  lemma MasksDivide(gear: Table, min: nat, avg: nat, max: nat, fp: nat)
    requires min < avg < max < WORD32 && avg >= 2
    ensures var p := MakeParams(gear, min, avg, max);
      && (And(fp, p.maskS) == 0 <==> fp % Divisor(avg, true) == 0)
      && (And(fp, p.maskL) == 0 <==> fp % Divisor(avg, false) == 0)
  {
    var bits := RoundLog2(avg);
    BitsOf(avg);
    WrapsBelow(bits);
    LimitedBits(bits);
    var p := MakeParams(gear, min, avg, max);
    assert p.maskS == GenerateFastCDCMask(bits + 1) && p.maskL == GenerateFastCDCMask(bits - 1);
    MaskTest(fp, bits + 1);
    MaskTest(fp, bits - 1);
  }

  // ---------- where to cut ----------

  /** The hash over the bytes from the minimum size up to and including position i hits the mask for that position. */
  predicate Hit(p: Params, src: seq<byte>, i: nat)
    requires p.min <= i < |src|
  {
    And(Fp(p.gear, src[p.min..i + 1]), if i < p.normal then p.maskS else p.maskL) == 0
  }

  /** The length of the first chunk of src: everything if src is short, else just past the first hit, else the
      maximum. */
  predicate IsCutLen(p: Params, src: seq<byte>, r: nat) {
    var end := Min(p.max, |src|);
    if end <= p.min then r == end
    else
      && p.min < r <= end
      && (forall i :: p.min <= i < r - 1 ==> !Hit(p, src, i))
      && (r == end || Hit(p, src, r - 1))
  }

  function CutFrom(p: Params, src: seq<byte>, i: nat): (r: nat)
    requires Valid(p) && p.min <= i < Min(p.max, |src|)
    ensures i < r <= Min(p.max, |src|)
    decreases |src| - i
  {
    if Hit(p, src, i) || i + 1 == Min(p.max, |src|) then i + 1 else CutFrom(p, src, i + 1)
  }

  function CutLen(p: Params, src: seq<byte>): (r: nat)
    requires Valid(p)
    ensures r <= |src| && r <= p.max && (src != [] ==> r > 0) && (r <= p.min ==> r == |src|)
  {
    if Min(p.max, |src|) <= p.min then Min(p.max, |src|) else CutFrom(p, src, p.min)
  }

  lemma {:induction false} CutFromIsFirst(p: Params, src: seq<byte>, i: nat)
    requires Valid(p) && p.min <= i < Min(p.max, |src|)
    requires forall j :: p.min <= j < i ==> !Hit(p, src, j)
    ensures IsCutLen(p, src, CutFrom(p, src, i))
    decreases |src| - i
  {
    if !Hit(p, src, i) && i + 1 < Min(p.max, |src|) {
      CutFromIsFirst(p, src, i + 1);
    }
  }

  /** The chunk ends just past the first hit after the minimum size, or at the maximum size or the end of the input. */
  lemma CutLenIsFirst(p: Params, src: seq<byte>)
    requires Valid(p)
    ensures IsCutLen(p, src, CutLen(p, src))
  {
    if Min(p.max, |src|) > p.min {
      CutFromIsFirst(p, src, p.min);
    }
  }

  /** The cut, by what the settings say: just past the first position from the minimum on at which the hash is a
      multiple of 2^(bits + 1), or of 2^(bits - 1) from the normal size on. */
  ghost predicate CutsFirst(gear: Table, min: nat, avg: nat, max: nat, src: seq<byte>, r: nat)
    requires 2 <= avg < WORD32
  {
    var end := Min(max, |src|);
    if end <= min then r == end
    else
      && min < r <= end
      && (forall i :: min <= i < r - 1 ==> !Divides(gear, min, avg, src, i))
      && (r == end || Divides(gear, min, avg, src, r - 1))
  }

  ghost predicate Divides(gear: Table, min: nat, avg: nat, src: seq<byte>, i: nat)
    requires 2 <= avg < WORD32 && min <= i < |src|
  {
    HashAt(gear, src, min, i) % Divisor(avg, i < IntendedNormal(min, avg)) == 0
  }

  /** The hash over the bytes from `from` up to and including position i. */
  ghost function HashAt(gear: Table, src: seq<byte>, from: nat, i: nat): nat
    requires from <= i < |src|
  {
    Fp(gear, src[from..i + 1])
  }

  lemma SettingsCut(gear: Table, min: nat, avg: nat, max: nat, src: seq<byte>)
    requires min < avg < max < WORD32 && avg >= 2 && min + (min + 1) / 2 < WORD32
    ensures var p := MakeParams(gear, min, avg, max);
      Valid(p) && CutsFirst(gear, min, avg, max, src, CutLen(p, src))
  {
    var p := MakeParams(gear, min, avg, max);
    SettingsAreValid(gear, min, avg, max);
    NormalSizeIff(min, avg, max);
    CutLenIsFirst(p, src);
    forall i | min <= i < |src|
      ensures Hit(p, src, i) <==> Divides(gear, min, avg, src, i)
    {
      MasksDivide(gear, min, avg, max, Fp(gear, src[min..i + 1]));
    }
  }

  lemma ConfiguredBits()
    ensures RoundLog2(8192) == 13 && Divisor(8192, false) == 4096
  {
    Pow2Values();
    Pow2Add(8, 5);
    Pow2Add(8, 4);
    assert Pow2(4) == 16;
    Pow2Add(13, 13);
    Log2Is(8192, 13);
  }

  lemma Log2Is(n: nat, k: nat)
    requires Pow2(k) <= n < Pow2(k + 1)
    ensures Log2(n) == k
  {
    if Log2(n) < k {
      Pow2Monotone(Log2(n) + 1, k);
    } else if k < Log2(n) {
      Pow2Monotone(k + 1, Log2(n));
    }
  }

  /** Just past the first hash from the minimum on that is a multiple of d, else at the bound. */
  ghost predicate CutsAtMultiple(gear: Table, min: nat, max: nat, d: nat, src: seq<byte>, r: nat)
    requires d > 0
  {
    var end := Min(max, |src|);
    if end <= min then r == end
    else
      && min < r <= end
      && (forall i :: min <= i < r - 1 ==> HashAt(gear, src, min, i) % d != 0)
      && (r == end || HashAt(gear, src, min, r - 1) % d == 0)
  }

  lemma SecondMaskOnly(gear: Table, min: nat, avg: nat, max: nat, src: seq<byte>, r: nat)
    requires 2 <= avg < WORD32 && IntendedNormal(min, avg) <= min && CutsFirst(gear, min, avg, max, src, r)
    ensures CutsAtMultiple(gear, min, max, Divisor(avg, false), src, r)
  {
    if Min(max, |src|) > min {
      forall i | min <= i < r - 1
        ensures HashAt(gear, src, min, i) % Divisor(avg, false) != 0
      {
        assert !Divides(gear, min, avg, src, i);
      }
    }
  }

  /** At the shipped sizes of 4096, 8192 and 16384 bytes the normal size, 2048, is below the minimum, so that only the
      second mask is ever used: a chunk ends just past the first hash behind 4096 bytes that is a multiple of 2^12. */
  lemma ConfiguredCut(gear: Table, src: seq<byte>)
    ensures var p := MakeParams(gear, 4096, 8192, 16384);
      Valid(p) && p.normal == 2048 && CutsAtMultiple(gear, 4096, 16384, 4096, src, CutLen(p, src))
  {
    SettingsCut(gear, 4096, 8192, 16384, src);
    ConfiguredBits();
    NormalSizeIff(4096, 8192, 16384);
    SecondMaskOnly(gear, 4096, 8192, 16384, src, CutLen(MakeParams(gear, 4096, 8192, 16384), src));
  }

  /** The first mask is used at all exactly when the average exceeds two and a half times the minimum. */
  lemma FirstMaskIsUsedIff(min: nat, avg: nat)
    ensures min < IntendedNormal(min, avg) <==> avg > 2 * min + (min + 1) / 2
  {
  }

  lemma CutLenUnique(p: Params, src: seq<byte>, a: nat, b: nat)
    requires IsCutLen(p, src, a) && IsCutLen(p, src, b)
    ensures a == b
  {
    if Min(p.max, |src|) > p.min {
      assert a == Min(p.max, |src|) || Hit(p, src, a - 1);
      assert b == Min(p.max, |src|) || Hit(p, src, b - 1);
    }
  }

  predicate MaskHit(gear: Table, src: seq<byte>, lo: nat, i: nat, mask: nat)
    requires lo <= i < |src|
  {
    And(Fp(gear, src[lo..i + 1]), mask) == 0
  }

  lemma FpExtend(gear: Table, src: seq<byte>, lo: nat, i: nat)
    requires lo <= i < |src|
    ensures Fp(gear, src[lo..i + 1]) == Roll(gear, Fp(gear, src[lo..i]), src[i])
  {
    var s := src[lo..i + 1];
    assert s[..|s| - 1] == src[lo..i] && s[|s| - 1] == src[i];
  }

  /** One of the two loops: roll the hash from position `start` on, stopping at `stop` or just past the first hit. */
  method Search(gear: Table, src: seq<byte>, ghost lo: nat, start: nat, stop: nat, fp0: nat, mask: nat)
    returns (i: nat, fp: nat, hit: bool)
    requires lo <= start <= stop <= |src| && fp0 == Fp(gear, src[lo..start])
    ensures start <= i <= stop && fp == Fp(gear, src[lo..i])
    ensures hit ==> i > start && MaskHit(gear, src, lo, i - 1, mask)
    ensures !hit ==> i == stop
    ensures forall j :: start <= j < (if hit then i - 1 else i) ==> !MaskHit(gear, src, lo, j, mask)
  {
    i, fp, hit := start, fp0, false;
    while i < stop
      invariant start <= i <= stop && fp == Fp(gear, src[lo..i]) && !hit
      invariant forall j :: start <= j < i ==> !MaskHit(gear, src, lo, j, mask)
    {
      FpExtend(gear, src, lo, i);
      fp := Roll(gear, fp, src[i]);
      i := i + 1;
      if And(fp, mask) == 0 {
        hit := true;
        return;
      }
    }
  }

  lemma CutIs(p: Params, src: seq<byte>, r: nat)
    requires Valid(p) && IsCutLen(p, src, r)
    ensures r == CutLen(p, src)
  {
    CutLenIsFirst(p, src);
    CutLenUnique(p, src, r, CutLen(p, src));
  }

  /** The cut-point search: two loops over one running hash, the stricter mask before the normal size. */
  method CutPoint(p: Params, src: seq<byte>) returns (cp: nat)
    requires Valid(p) && |src| < WORD32
    ensures cp == CutLen(p, src)
  {
    var len := |src|;
    var i, fp, hit := Min(len, p.min), 0, false;
    if len <= p.min {
      cp := i;
      CutIs(p, src, cp);
      return;
    }
    assert src[p.min..i] == [];
    var n := Min(p.normal, len);
    if i < n {
      i, fp, hit := Search(p.gear, src, p.min, i, n, fp, p.maskS);
      assert forall j :: p.min <= j < i ==> Hit(p, src, j) == MaskHit(p.gear, src, p.min, j, p.maskS);
      if hit {
        cp := i;
        CutIs(p, src, cp);
        return;
      }
    }
    n := Min(p.max, len);
    ghost var mid := i;
    i, fp, hit := Search(p.gear, src, p.min, i, n, fp, p.maskL);
    assert forall j :: mid <= j < i ==> Hit(p, src, j) == MaskHit(p.gear, src, p.min, j, p.maskL);
    cp := i;
    assert forall j :: p.min <= j < cp - 1 ==> !Hit(p, src, j);
    CutIs(p, src, cp);
  }

  // ---------- the whole-file chunker ----------

  /** Repeatedly cut the remaining file. */
  ghost function Chunks(p: Params, file: seq<byte>): seq<seq<byte>>
    requires Valid(p)
    decreases |file|
  {
    if file == [] then [] else [file[..CutLen(p, file)]] + Chunks(p, file[CutLen(p, file)..])
  }

  function Concat(parts: seq<seq<byte>>): seq<byte> {
    if parts == [] then [] else parts[0] + Concat(parts[1..])
  }

  /** Chunking loses nothing, and every chunk but the last is longer than the minimum and at most the maximum. */
  lemma {:induction false} ChunksCoverFile(p: Params, file: seq<byte>)
    requires Valid(p)
    ensures Concat(Chunks(p, file)) == file
    ensures forall k :: 0 <= k < |Chunks(p, file)| ==> 0 < |Chunks(p, file)[k]| <= p.max
    ensures forall k :: 0 <= k < |Chunks(p, file)| - 1 ==> p.min < |Chunks(p, file)[k]|
    decreases |file|
  {
    if file != [] {
      var c := CutLen(p, file);
      ChunksCoverFile(p, file[c..]);
      assert file == file[..c] + file[c..];
      assert Chunks(p, file)[1..] == Chunks(p, file[c..]);
    }
  }

  /** The cut depends on no more than the first max bytes. */
  lemma CutLenLocal(p: Params, src: seq<byte>, k: nat)
    requires Valid(p) && p.max <= k <= |src|
    ensures CutLen(p, src[..k]) == CutLen(p, src)
  {
    var r := CutLen(p, src[..k]);
    CutLenIsFirst(p, src[..k]);
    forall i | p.min <= i < p.max
      ensures Hit(p, src[..k], i) == Hit(p, src, i)
    {
      assert src[..k][p.min..i + 1] == src[p.min..i + 1];
    }
    CutIs(p, src, r);
  }

  // ---------- the windowed reader ----------

  /** `chunks` are the first whole-file chunks; chunk k lies between offsets bounds[k] and bounds[k + 1]. */
  ghost predicate Emitted(p: Params, file: seq<byte>, chunks: seq<seq<byte>>, bounds: seq<nat>)
    requires Valid(p)
  {
    && |bounds| == |chunks| + 1 && bounds[0] == 0
    && forall k :: 0 <= k < |chunks| ==> IsChunk(p, file, chunks[k], bounds[k], bounds[k + 1])
  }

  ghost predicate IsChunk(p: Params, file: seq<byte>, chunk: seq<byte>, from: nat, to: nat)
    requires Valid(p)
  {
    from < to <= |file| && chunk == file[from..to] && to - from == CutLen(p, file[from..])
  }

  ghost function Last(bounds: seq<nat>): nat
    requires bounds != []
  {
    bounds[|bounds| - 1]
  }

  lemma EmitOne(p: Params, file: seq<byte>, chunks: seq<seq<byte>>, bounds: seq<nat>, chunk: seq<byte>, to: nat)
    requires Valid(p) && Emitted(p, file, chunks, bounds) && IsChunk(p, file, chunk, Last(bounds), to)
    ensures Emitted(p, file, chunks + [chunk], bounds + [to])
  {
  }

  lemma {:induction false} EmittedIsPrefix(p: Params, file: seq<byte>, chunks: seq<seq<byte>>, bounds: seq<nat>, k: nat)
    requires Valid(p) && Emitted(p, file, chunks, bounds) && k <= |chunks|
    ensures bounds[k] <= |file| && Chunks(p, file) == chunks[..k] + Chunks(p, file[bounds[k]..])
  {
    if k == 0 {
      assert file[0..] == file;
    } else {
      EmittedIsPrefix(p, file, chunks, bounds, k - 1);
      assert IsChunk(p, file, chunks[k - 1], bounds[k - 1], bounds[k]);
      var rest, last := Chunks(p, file[bounds[k]..]), chunks[k - 1];
      assert Chunks(p, file[bounds[k - 1]..]) == [last] + rest by {
        FirstChunk(p, file, last, bounds[k - 1], bounds[k]);
      }
      assert chunks[..k] == chunks[..k - 1] + [last];
      Assoc(chunks[..k - 1], [last], rest);
    }
  }

  lemma FirstChunk(p: Params, file: seq<byte>, chunk: seq<byte>, from: nat, to: nat)
    requires Valid(p) && IsChunk(p, file, chunk, from, to)
    ensures Chunks(p, file[from..]) == [chunk] + Chunks(p, file[to..])
  {
    var rest, c := file[from..], to - from;
    assert rest[c..] == file[to..];
    assert rest[..c] == chunk;
    assert c == CutLen(p, rest);
  }

  lemma SliceOfSlice<A>(s: seq<A>, a: nat, b: nat, i: nat, j: nat)
    requires a <= b <= |s| && i <= j <= b - a
    ensures s[a..b][i..j] == s[a + i..a + j]
  {
    var x, y := s[a..b][i..j], s[a + i..a + j];
    forall k | 0 <= k < |x|
      ensures x[k] == y[k]
    {
      assert x[k] == s[a..b][i + k];
    }
  }

  /** A cut found in the window is the cut of the file, if the window holds a maximal chunk or the rest of the file. */
  lemma WindowCut(p: Params, file: seq<byte>, start: nat, len: nat, local: nat)
    requires Valid(p) && start + len <= |file| && local <= len
    requires len - local >= p.max || start + len == |file|
    ensures CutLen(p, file[start..start + len][local..]) == CutLen(p, file[start + local..])
  {
    var rest := file[start + local..];
    assert file[start..start + len][local..] == rest[..len - local];
    if len - local >= p.max {
      CutLenLocal(p, rest, len - local);
    } else {
      assert rest[..len - local] == rest;
    }
  }

  lemma ChunkInWindow(p: Params, file: seq<byte>, start: nat, buf: seq<byte>, local: nat, cp: nat)
    requires Valid(p) && start + |buf| <= |file| && buf == file[start..start + |buf|] && local < |buf|
    requires |buf| - local >= p.max || start + |buf| == |file|
    requires cp == CutLen(p, buf[local..])
    ensures 0 < cp && local + cp <= |buf| && IsChunk(p, file, buf[local..local + cp], start + local, start + local + cp)
  {
    WindowCut(p, file, start, |buf|, local);
    SliceOfSlice(file, start, start + |buf|, local, local + cp);
  }

  lemma EmitNext(p: Params, file: seq<byte>, start: nat, buf: seq<byte>, local: nat, cp: nat, chunks: seq<seq<byte>>,
      bounds: seq<nat>)
    requires Valid(p) && start + |buf| <= |file| && buf == file[start..start + |buf|] && local < |buf|
    requires |buf| - local >= p.max || start + |buf| == |file|
    requires cp == CutLen(p, buf[local..]) && Emitted(p, file, chunks, bounds) && Last(bounds) == start + local
    ensures 0 < cp && local + cp <= |buf|
    ensures Emitted(p, file, chunks + [buf[local..local + cp]], bounds + [start + local + cp])
  {
    ChunkInWindow(p, file, start, buf, local, cp);
    EmitOne(p, file, chunks, bounds, buf[local..local + cp], start + local + cp);
  }

  /** The inner loop over one window: cut while it holds a maximal chunk, or to its end if the file ends with it.
      It moves forward exactly when the window can hold a maximal chunk or is the last one. */
  method ChunkWindow(p: Params, ghost file: seq<byte>, buf: seq<byte>, end: bool, chunks0: seq<seq<byte>>,
      ghost bounds0: seq<nat>)
    returns (chunks: seq<seq<byte>>, localOffset: nat, ghost bounds: seq<nat>)
    requires Valid(p) && |buf| < WORD32 && Emitted(p, file, chunks0, bounds0)
    requires Last(bounds0) + |buf| <= |file| && buf == file[Last(bounds0)..Last(bounds0) + |buf|]
    requires end ==> Last(bounds0) + |buf| == |file|
    ensures Emitted(p, file, chunks, bounds) && Last(bounds) == Last(bounds0) + localOffset
    ensures localOffset <= |buf| && (end ==> localOffset == |buf|)
    ensures localOffset == 0 <==> |buf| < p.max && (!end || buf == [])
  {
    var len := |buf|;
    chunks, localOffset, bounds := chunks0, 0, bounds0;
    while len - localOffset >= p.max || (end && localOffset < len)
      invariant localOffset <= len && Emitted(p, file, chunks, bounds) && Last(bounds) == Last(bounds0) + localOffset
      invariant localOffset == 0 || len >= p.max || end
      decreases len - localOffset
    {
      var cp := CutPoint(p, buf[localOffset..]);
      var chunk := buf[localOffset..localOffset + cp];
      EmitNext(p, file, Last(bounds0), buf, localOffset, cp, chunks, bounds);
      bounds := bounds + [Last(bounds) + cp];
      chunks := chunks + [chunk];
      localOffset := localOffset + cp;
    }
  }

  /** Read a window, chunk what is certain, seek back to the first byte not chunked, and go on: the chunks are those of
      the whole-file chunker, whatever the read size, as long as a window can hold a maximal chunk. */
  method FastCDC(p: Params, file: seq<byte>, readSize: nat) returns (chunks: seq<seq<byte>>, fileSize: nat)
    requires Valid(p) && p.max <= readSize < WORD32
    ensures chunks == Chunks(p, file) && fileSize == |file|
  {
    chunks, fileSize := [], 0;
    ghost var bounds: seq<nat> := [0];
    var totalOffset := 0;
    var end := false;
    while !end
      invariant totalOffset <= |file| && fileSize == totalOffset
      invariant Emitted(p, file, chunks, bounds) && Last(bounds) == totalOffset
      invariant end ==> totalOffset == |file|
      decreases |file| - totalOffset, if end then 0 else 1
    {
      var len := Min(readSize, |file| - totalOffset);
      var buf := file[totalOffset..totalOffset + len];
      end := |file| - totalOffset < readSize;
      if len == 0 {
        break;
      }
      var localOffset;
      chunks, localOffset, bounds := ChunkWindow(p, file, buf, end, chunks, bounds);
      fileSize := fileSize + localOffset;
      totalOffset := totalOffset + localOffset;
    }
    EmittedIsPrefix(p, file, chunks, bounds, |chunks|);
    assert file[totalOffset..] == [] && chunks[..|chunks|] == chunks;
  }
}
