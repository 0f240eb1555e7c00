/** Container names: an odometer in base 36 run `times` steps from zero. */
module ContainerName {
  const CONTAINER_ID_LENGTH: nat := 7

  /** The digits 0-9a-z. */
  function Alphabet(d: nat): char
    requires d < 36
  {
    if d < 10 then '0' + d as char else 'a' + (d - 10) as char
  }

  function Pow36(k: nat): (r: nat)
    ensures r > 0
  {
    if k == 0 then 1 else 36 * Pow36(k - 1)
  }

  /** The base-36 numeral of n with len digits, high digit first. */
  function Numeral(n: nat, len: nat): (s: string)
    ensures |s| == len
  {
    if len == 0 then "" else Numeral(n / 36, len - 1) + [Alphabet(n % 36)]
  }

  /** Lexicographic order of strings of one length: they differ first at some place, and are in order there. */
  ghost predicate LexLess(a: string, b: string) {
    |a| == |b| && exists k :: 0 <= k < |a| && a[..k] == b[..k] && a[k] < b[k]
  }

  lemma {:induction false} NumeralsIncrease(a: nat, b: nat, len: nat)
    requires a < b < Pow36(len)
    ensures LexLess(Numeral(a, len), Numeral(b, len))
    decreases len
  {
    var s, t := Numeral(a, len), Numeral(b, len);
    var front, frontB := Numeral(a / 36, len - 1), Numeral(b / 36, len - 1);
    if a / 36 == b / 36 {
      assert s[..len - 1] == front == t[..len - 1] && s[len - 1] < t[len - 1];
    } else {
      NumeralsIncrease(a / 36, b / 36, len - 1);
      var k :| 0 <= k < len - 1 && front[..k] == frontB[..k] && front[k] < frontB[k];
      assert s[..k] == front[..k] && t[..k] == frontB[..k] && s[k] < t[k];
    }
  }

  // ---------- the odometer ----------

  /** Value of the digits, low digit first. */
  function Value(d: seq<nat>): nat {
    if d == [] then 0 else d[0] + 36 * Value(d[1..])
  }

  ghost predicate AllBelow36(d: seq<nat>) {
    forall i :: 0 <= i < |d| ==> d[i] < 36
  }

  lemma {:induction false} ValueBound(d: seq<nat>)
    requires AllBelow36(d)
    ensures Value(d) < Pow36(|d|)
  {
    if d != [] {
      ValueBound(d[1..]);
    }
  }

  lemma {:induction false} OverflowsAtTop(d: seq<nat>)
    requires d != [] && d[|d| - 1] >= 36
    ensures Value(d) >= Pow36(|d|)
  {
    if |d| > 1 {
      OverflowsAtTop(d[1..]);
    }
  }

  function Carried(d: seq<nat>, i: nat): seq<nat>
    requires i + 1 < |d| && d[i] == 36
  {
    d[i := 0][i + 1 := d[i + 1] + 1]
  }

  lemma {:induction false} CarryKeepsValue(d: seq<nat>, i: nat)
    requires i + 1 < |d| && d[i] == 36
    ensures Value(Carried(d, i)) == Value(d)
  {
    var d' := Carried(d, i);
    if i == 0 {
      assert d'[1..][1..] == d[1..][1..];
    } else {
      CarryKeepsValue(d[1..], i - 1);
      assert d'[1..] == Carried(d[1..], i - 1);
    }
  }

  lemma {:induction false} ZeroValue(d: seq<nat>)
    requires forall i :: 0 <= i < |d| ==> d[i] == 0
    ensures Value(d) == 0
  {
    if d != [] {
      ZeroValue(d[1..]);
    }
  }

  function Reversed(d: seq<nat>): (s: string)
    requires AllBelow36(d)
    ensures |s| == |d|
  {
    if d == [] then "" else Reversed(d[1..]) + [Alphabet(d[0])]
  }

  lemma {:induction false} ReversedIsNumeral(d: seq<nat>)
    requires AllBelow36(d)
    ensures Reversed(d) == Numeral(Value(d), |d|)
  {
    if d != [] {
      ReversedIsNumeral(d[1..]);
      assert Value(d) / 36 == Value(d[1..]) && Value(d) % 36 == d[0];
    }
  }

  lemma {:induction false} ReversedAt(d: seq<nat>, i: nat)
    requires AllBelow36(d) && i < |d|
    ensures Reversed(d)[i] == Alphabet(d[|d| - 1 - i])
  {
    if i < |d| - 1 {
      ReversedAt(d[1..], i);
    }
  }

  /** One step: count up the low digit, and pass carries along. The top digit never overflows below 36 to the length. */
  method Increment(digits: array<nat>)
    requires digits.Length > 0 && AllBelow36(digits[..]) && Value(digits[..]) + 1 < Pow36(digits.Length)
    modifies digits
    ensures AllBelow36(digits[..]) && Value(digits[..]) == Value(old(digits[..])) + 1
  {
    ghost var goal := Value(digits[..]) + 1;
    assert digits[..][1..] == digits[1..];
    digits[0] := digits[0] + 1;
    assert digits[..][1..] == digits[1..];
    if digits[0] == 36 {
      for i := 0 to digits.Length
        invariant Value(digits[..]) == goal
        invariant forall k :: 0 <= k < digits.Length && k != i ==> digits[k] < 36
        invariant i < digits.Length ==> digits[i] <= 36
      {
        if digits[i] == 36 {
          if i + 1 == digits.Length {
            OverflowsAtTop(digits[..]);
          }
          CarryKeepsValue(digits[..], i);
          ghost var next := Carried(digits[..], i);
          digits[i + 1] := digits[i + 1] + 1;
          digits[i] := 0;
          assert digits[..] == next;
        }
      }
    }
  }

  /** The name for a count is its base-36 numeral, as long as the count has one of that length; a negative count gives
      zeros. */
  method CreateUUID(digits: array<nat>, times: int) returns (name: string)
    requires times < Pow36(digits.Length) && digits.Length > 0
    modifies digits
    ensures name == Numeral(if times < 0 then 0 else times, digits.Length)
  {
    for k := 0 to digits.Length
      invariant forall i :: 0 <= i < k ==> digits[i] == 0
    {
      digits[k] := 0;
    }
    ZeroValue(digits[..]);
    var j := 0;
    while j < times
      invariant 0 <= j && (times >= 0 ==> j <= times) && (times < 0 ==> j == 0)
      invariant AllBelow36(digits[..]) && Value(digits[..]) == j
    {
      Increment(digits);
      j := j + 1;
    }
    ghost var counted := digits[..];
    ReversedIsNumeral(counted);
    name := "";
    for i := 0 to digits.Length
      invariant digits[..] == counted
      invariant |name| == i && forall k :: 0 <= k < i ==> name[k] == Reversed(counted)[k]
    {
      ReversedAt(counted, i);
      name := name + [Alphabet(digits[digits.Length - 1 - i])];
    }
  }

  lemma IntsFit()
    ensures 0x8000_0000 <= Pow36(CONTAINER_ID_LENGTH)
  {
    assert Pow36(4) == 1679616;
  }

  /** Any two counts below 2^31 get different 7-character names, in the order of the counts. */
  lemma NamesAreOrdered(a: nat, b: nat)
    requires a < b < 0x8000_0000
    ensures LexLess(Numeral(a, CONTAINER_ID_LENGTH), Numeral(b, CONTAINER_ID_LENGTH))
    ensures Numeral(a, CONTAINER_ID_LENGTH) != Numeral(b, CONTAINER_ID_LENGTH)
  {
    IntsFit();
    NumeralsIncrease(a, b, CONTAINER_ID_LENGTH);
  }
}
