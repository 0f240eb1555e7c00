/** Unsigned machine-word arithmetic written over `nat`: the bitwise operators, the masks
    used as "modulo a power of two", and the round-up-to-a-power-of-two bit trick. */
module Bits {
  type byte = x: int | 0 <= x < 256

  const WORD32: int := 0x1_0000_0000
  const WORD: int := 0x1_0000_0000_0000_0000
  const HALF: int := 0x8000_0000_0000_0000

  /** What a 64-bit word holds of a count. */
  function Word(x: int): (r: nat)
    ensures r < WORD
  {
    x % WORD
  }

  function Pow2(k: nat): (r: nat)
    ensures r >= 1
  {
    if k == 0 then 1 else 2 * Pow2(k - 1)
  }

  ghost predicate IsPow2(n: nat) {
    exists k: nat :: n == Pow2(k)
  }

  function And(a: nat, b: nat): (r: nat)
    ensures r <= b
  {
    if a == 0 || b == 0 then 0
    else (if a % 2 == 1 && b % 2 == 1 then 1 else 0) + 2 * And(a / 2, b / 2)
  }

  function Or(a: nat, b: nat): nat
    decreases a + b
  {
    if a == 0 then b else if b == 0 then a
    else (if a % 2 == 1 || b % 2 == 1 then 1 else 0) + 2 * Or(a / 2, b / 2)
  }

  function Shr(a: nat, k: nat): nat
    decreases k
  {
    if k == 0 then a else Shr(a / 2, k - 1)
  }

  // ---------- products and quotients ----------

  lemma MulLe(a: nat, b: nat, c: nat)
    requires b <= c
    ensures a * b <= a * c
  {
    assert a * c == a * b + a * (c - b);
  }

  lemma MulDist(a: int, b: int, c: int)
    ensures a * (b + c) == a * b + a * c
  {
  }

  lemma DivModUnique(x: int, d: int, q: int, r: int)
    requires d > 0 && 0 <= r < d && x == d * q + r
    ensures x / d == q && x % d == r
  {
    var p, s := x / d, x % d;
    assert x == d * p + s;
    MulDist(d, p, q - p);
    MulDist(d, q, p - q);
    if p < q {
      MulLe(d, 1, q - p);
      assert false;
    } else if p > q {
      MulLe(d, 1, p - q);
      assert false;
    }
  }

  // ---------- powers of two ----------

  lemma {:induction false} Pow2Add(a: nat, b: nat)
    ensures Pow2(a + b) == Pow2(a) * Pow2(b)
  {
    if a != 0 {
      Pow2Add(a - 1, b);
    }
  }

  lemma {:induction false} Pow2Monotone(a: nat, b: nat)
    requires a <= b
    ensures Pow2(a) <= Pow2(b)
  {
    if a < b {
      Pow2Monotone(a, b - 1);
    }
  }

  lemma Pow2Values()
    ensures Pow2(5) == 32 && Pow2(8) == 256
    ensures Pow2(31) == 0x8000_0000 && Pow2(32) == 0x1_0000_0000
    ensures Pow2(63) == 0x8000_0000_0000_0000 && Pow2(64) == 0x1_0000_0000_0000_0000
  {
    assert Pow2(7) == 128 && Pow2(8) == 256;
    Pow2Add(8, 7);
    Pow2Add(8, 8);
    assert Pow2(15) == 32768 && Pow2(16) == 65536;
    Pow2Add(16, 15);
    Pow2Add(16, 16);
    assert Pow2(31) == 0x8000_0000 && Pow2(32) == 0x1_0000_0000;
    Pow2Add(32, 31);
    Pow2Add(32, 32);
  }

  // Dividing by Pow2(j + 1) is halving first and then dividing by Pow2(j).
  lemma HalveThenShift(x: nat, j: nat)
    ensures x / Pow2(j + 1) == (x / 2) / Pow2(j)
    ensures x % Pow2(j + 1) == x % 2 + 2 * ((x / 2) % Pow2(j))
  {
    var p := Pow2(j);
    var q, r := (x / 2) / p, (x / 2) % p;
    var low := x % 2 + 2 * r;
    assert x / 2 == p * q + r;
    assert (2 * p) * q == 2 * (p * q);
    DivModUnique(x, 2 * p, q, low);
  }

  /** A right shift is a division by a power of two. */
  lemma {:induction false} ShrIsDiv(x: nat, k: nat)
    ensures Shr(x, k) == x / Pow2(k)
    decreases k
  {
    if k == 0 {
      assert x / 1 == x;
    } else {
      ShrIsDiv(x / 2, k - 1);
      HalveThenShift(x, k - 1);
    }
  }

  lemma {:induction false} ShrShr(x: nat, a: nat, b: nat)
    ensures Shr(Shr(x, a), b) == Shr(x, a + b)
    decreases a
  {
    if a != 0 {
      ShrShr(x / 2, a - 1, b);
    }
  }

  // ---------- masks ----------

  /** `x & (2^k - 1)` is `x mod 2^k`: every `& sizeMask` in the queues is a remainder. */
  lemma {:induction false} MaskIsMod(x: nat, k: nat)
    ensures And(x, Pow2(k) - 1) == x % Pow2(k)
  {
    if k == 0 {
      assert x % 1 == 0;
    } else if x == 0 {
      DivModUnique(0, Pow2(k), 0, 0);
    } else {
      MaskIsMod(x / 2, k - 1);
      HalveThenShift(x, k - 1);
      assert (Pow2(k) - 1) / 2 == Pow2(k - 1) - 1;
    }
  }

  // ---------- the round-up trick ----------

  lemma {:induction false} ShrOr(a: nat, b: nat, k: nat)
    ensures Shr(Or(a, b), k) == Or(Shr(a, k), Shr(b, k))
    decreases k
  {
    if k != 0 {
      assert Or(a, b) / 2 == Or(a / 2, b / 2);
      ShrOr(a / 2, b / 2, k - 1);
    }
  }

  lemma {:induction false} ShrOnes(a: nat, b: nat)
    requires b <= a
    ensures Shr(Pow2(a) - 1, b) == Pow2(a - b) - 1
  {
    if b != 0 {
      assert (Pow2(a) - 1) / 2 == Pow2(a - 1) - 1;
      ShrOnes(a - 1, b - 1);
    }
  }

  // Filling the low d bits of a number whose remaining bits are already ones.
  lemma {:induction false} OrFillsLow(z: nat, a: nat, d: nat)
    requires Shr(z, d) == Pow2(a) - 1
    ensures Or(z, Pow2(d) - 1) == Pow2(a + d) - 1
    decreases d
  {
    if d != 0 {
      OrFillsLow(z / 2, a, d - 1);
      assert (Pow2(d) - 1) / 2 == Pow2(d - 1) - 1;
    }
  }

  /** `x` has k bits, the top m of which are ones. */
  ghost predicate TopOnes(x: nat, k: nat, m: nat) {
    m <= k && Shr(x, k - m) == Pow2(m) - 1
  }

  ghost function Twice(m: nat, k: nat): nat {
    if 2 * m <= k then 2 * m else k
  }

  lemma TailOnes(x: nat, k: nat, m: nat, d: nat)
    requires TopOnes(x, k, m) && d <= m
    ensures Shr(x, k - d) == Pow2(d) - 1
  {
    ShrShr(x, k - m, m - d);
    ShrOnes(m, m - d);
  }

  lemma SmearBits(x: nat, m: nat, d: nat, rest: nat)
    requires Shr(x, rest + d) == Pow2(m) - 1 && Shr(x, m + rest) == Pow2(d) - 1
    ensures Shr(Or(x, Shr(x, m)), rest) == Pow2(m + d) - 1
  {
    ShrOr(x, Shr(x, m), rest);
    ShrShr(x, m, rest);
    ShrShr(x, rest, d);
    OrFillsLow(Shr(x, rest), m, d);
  }

  lemma SmearBy(x: nat, k: nat, m: nat, d: nat, rest: nat)
    requires TopOnes(x, k, m) && d <= m && m + d + rest == k
    ensures TopOnes(Or(x, Shr(x, m)), k, m + d)
  {
    assert Shr(x, m + rest) == Pow2(d) - 1 by { TailOnes(x, k, m, d); }
    SmearBits(x, m, d, rest);
  }

  /** One `x |= x >> m` doubles the run of leading ones. */
  lemma SmearStep(x: nat, k: nat, m: nat)
    requires TopOnes(x, k, m)
    ensures TopOnes(Or(x, Shr(x, m)), k, Twice(m, k))
  {
    SmearBy(x, k, m, Twice(m, k) - m, k - Twice(m, k));
  }

  lemma {:induction false} TopBit(x: nat, j: nat)
    requires Pow2(j) <= x < Pow2(j + 1)
    ensures Shr(x, j) == 1
    decreases j
  {
    if j > 0 {
      TopBit(x / 2, j - 1);
    }
  }

  lemma {:induction false} ShiftedOut(x: nat, j: nat)
    requires x < Pow2(j)
    ensures Shr(x, j) == 0
    decreases j
  {
    if j > 0 {
      ShiftedOut(x / 2, j - 1);
    }
  }

  lemma {:induction false} BitLength(x: nat) returns (k: nat)
    ensures x < Pow2(k) && (x == 0 ==> k == 0)
    ensures x > 0 ==> k > 0 && Pow2(k - 1) <= x && TopOnes(x, k, 1)
  {
    if x == 0 {
      k := 0;
    } else {
      k := BitLength(x / 2);
      k := k + 1;
      TopBit(x, k - 1);
    }
  }

  // Once every bit is a one, further smearing changes nothing.
  lemma SmearDone(x: nat, k: nat, shift: nat)
    requires x == Pow2(k) - 1
    ensures Or(x, Shr(x, shift)) == x
  {
    if shift <= k {
      assert Shr(x, shift) == Pow2(k - shift) - 1 by { ShrOnes(k, shift); }
      assert Shr(x, k - shift) == Pow2(shift) - 1 by { ShrOnes(k, k - shift); }
      OrFillsLow(x, shift, k - shift);
    } else {
      Pow2Monotone(k, shift);
      ShiftedOut(x, shift);
    }
  }

  // One `x |= x >> shift` of the code, with the run of leading ones it leaves behind.
  method Smear(x: nat, ghost k: nat, ghost m: nat, shift: nat) returns (r: nat)
    requires TopOnes(x, k, m) && (shift == m || m == k)
    ensures TopOnes(r, k, Twice(m, k))
  {
    r := Or(x, Shr(x, shift));
    if m == k {
      assert Pow2(0) == 1 && Shr(x, 0) == x;
      SmearDone(x, k, shift);
    } else {
      SmearStep(x, k, m);
    }
  }

  lemma AllOnes(y: nat, k: nat)
    requires TopOnes(y, k, k)
    ensures y + 1 == Pow2(k)
  {
    assert Pow2(0) == 1 && Shr(y, 0) == y;
  }

  lemma FitsWord(y: nat, k: nat)
    requires y < WORD && (y > 0 ==> k > 0 && Pow2(k - 1) <= y) && y < Pow2(k) && (y == 0 ==> k == 0)
    ensures k <= 64 && (k == 64 <==> y >= HALF)
  {
    Pow2Values();
    if k > 64 { Pow2Monotone(64, k - 1); }
    if k <= 63 { Pow2Monotone(k, 63); }
  }

  lemma LeastPow2(x: nat, k: nat, j: nat)
    requires x <= Pow2(j) && (k > 0 ==> Pow2(k - 1) < x)
    ensures Pow2(k) <= Pow2(j)
  {
    if j < k { Pow2Monotone(j, k - 1); } else { Pow2Monotone(k, j); }
  }

  /** The shifts between `--x` and `++x`: they fill every bit below the highest one. */
  method SmearAll(x: nat, ghost k: nat) returns (y: nat)
    requires k <= 64 && (if x == 0 then k == 0 else TopOnes(x, k, 1))
    ensures y + 1 == Pow2(k)
  {
    ghost var m := if x == 0 then 0 else 1;
    y := Smear(x, k, m, 1);
    m := Twice(m, k);
    y := Smear(y, k, m, 2);
    m := Twice(m, k);
    y := Smear(y, k, m, 4);
    m := Twice(m, k);
    var i := 1;
    while i < 8
      invariant i == 1 || i == 2 || i == 4 || i == 8
      invariant TopOnes(y, k, m) && (m == 8 * i || (m == k && k < 8 * i))
    {
      y := Smear(y, k, m, 8 * i);
      m := Twice(m, k);
      i := 2 * i;
    }
    AllOnes(y, k);
  }

  /** The bit-smearing round-up of a 64-bit word: the least power of two that is >= x, and 0 where there is none in a
      word, or where x is 0 itself. */
  method CeilToPow2(x: nat) returns (r: nat)
    requires x < WORD
    ensures 1 <= x <= HALF ==> IsPow2(r) && x <= r && forall j: nat :: x <= Pow2(j) ==> r <= Pow2(j)
    ensures x == 0 || x > HALF ==> r == 0
  {
    var y := if x == 0 then WORD - 1 else x - 1;
    ghost var k := BitLength(y);
    FitsWord(y, k);
    y := SmearAll(y, k);
    r := Word(y + 1);
    Rounded(x, k);
  }

  lemma Rounded(x: nat, k: nat)
    requires k <= 64 && (1 <= x <= HALF ==> k < 64 && x <= Pow2(k) && (k > 0 ==> Pow2(k - 1) < x))
    requires x == 0 || x > HALF ==> k == 64
    ensures 1 <= x <= HALF ==> Word(Pow2(k)) == Pow2(k) && forall j: nat :: x <= Pow2(j) ==> Pow2(k) <= Pow2(j)
    ensures x == 0 || x > HALF ==> Word(Pow2(k)) == 0
  {
    Pow2Values();
    if k < 64 {
      Pow2Monotone(k, 63);
      forall j: nat | x <= Pow2(j)
        ensures Pow2(k) <= Pow2(j)
      {
        LeastPow2(x, k, j);
      }
    }
  }
}
