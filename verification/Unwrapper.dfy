// Recovering full sequence numbers from their low bits (ReCapABR/common/cf_unwrapper.c).

/** One rule for any even modulus m; the two widths of the source are two ways of computing it. */
module Unwrapping {

  const M16: nat := 0x1_0000
  const M32: nat := 0x1_0000_0000

  /** The next number with the low part val, for the last number recovered. */
  function Unwrap(m: int, last: nat, val: nat): (r: int)
    requires m > 0 && m % 2 == 0 && val < m
  {
    Choice(m, last, (val - last % m) % m, val > last % m)
  }

  /** Forward by d, or backward by m - d; at exactly half the range the larger low part wins. */
  function Choice(m: int, last: nat, d: nat, larger: bool): int {
    var forward := 0 < 2 * d < m || (2 * d == m && larger);
    if d == 0 || forward || last + d - m < 0 then last + d else last + d - m
  }

  lemma ModSteps(m: int, x: int, y: int)
    requires m > 0
    ensures (x - y % m) % m == (x - y) % m
    ensures (y + (x - y) % m) % m == x % m
  {
    assert y == m * (y / m) + y % m;
    ShiftMod(m, x - y, y / m);
    assert (x - y) == m * ((x - y) / m) + (x - y) % m;
    ShiftMod(m, y + (x - y) % m, (x - y) / m);
    assert y + (x - y) % m + m * ((x - y) / m) == x;
  }

  lemma ShiftMod(m: int, x: int, k: int)
    requires m > 0
    ensures (x + m * k) % m == x % m
  {
    UniqueMod(m, x + m * k, x / m + k, x % m);
    assert m * (x / m + k) == m * (x / m) + m * k;
  }

  lemma UniqueMod(m: int, x: int, q: int, r: int)
    requires m > 0 && 0 <= r < m && (x == m * q + r || m * q == x - r)
    ensures x % m == r
  {
    var d := x / m - q;
    assert m * d == m * (x / m) - m * q;
    assert m * d == r - x % m;
    if d > 0 { Large(m, d); }
    if d < 0 { Large(m, -d); }
  }

  lemma Large(m: int, d: int)
    requires m > 0 && d > 0
    ensures m * d >= m
  {
  }

  /** On any input the result is not negative and has the low part given. */
  lemma UnwrapIsCongruent(m: int, last: nat, val: nat)
    requires m > 0 && m % 2 == 0 && val < m
    ensures Unwrap(m, last, val) >= 0 && Unwrap(m, last, val) % m == val
  {
    ModSteps(m, val, last);
    UniqueMod(m, val, 0, val);
    ShiftMod(m, last + (val - last % m) % m, -1);
  }

  /** The number x differs from the last one by e: it is recovered when it is the nearest of its class. */
  predicate Near(m: int, last: nat, x: nat)
    requires m > 0
  {
    NearBy(m, x - last, x, x % m > last % m, x % m < last % m)
  }

  predicate NearBy(m: int, e: int, x: nat, larger: bool, smaller: bool) {
    || -m < 2 * e < m
    || (2 * e == m && larger)
    || (2 * e == -m && smaller)
    || (m <= 2 * e < 2 * m && x < m)
  }

  /** Exactly the near numbers are recovered from their low parts. */
  lemma RecoveredIffNear(m: int, last: nat, x: nat)
    requires m > 0 && m % 2 == 0
    ensures Unwrap(m, last, x % m) == x <==> Near(m, last, x)
  {
    var e := x - last;
    var d := (x % m - last % m) % m;
    ModSteps(m, x % m, last);
    SubMod(m, x, last);
    if -m < e < m {
      var q := if e >= 0 then 0 else -1;
      UniqueMod(m, e, q, e - m * q);
    }
    if x % m == last % m { UniqueMod(m, 0, 0, 0); }
    if 2 * e == m || 2 * e == -m { HalfApart(m, last, x); }
    ChoiceIsNear(m, last, x, d, x % m > last % m, x % m < last % m);
  }

  lemma ChoiceIsNear(m: int, last: nat, x: nat, d: nat, larger: bool, smaller: bool)
    requires m > 0 && m % 2 == 0 && d < m && !(larger && smaller)
    requires -m < x - last < m ==> d == if x >= last then x - last else x - last + m
    requires 2 * (x - last) == m || 2 * (x - last) == -m ==> larger || smaller
    ensures Choice(m, last, d, larger) == x <==> NearBy(m, x - last, x, larger, smaller)
  {
  }

  lemma HalfApart(m: int, last: nat, x: nat)
    requires m > 0 && m % 2 == 0 && (2 * (x - last) == m || 2 * (x - last) == -m)
    ensures x % m != last % m
  {
    SubMod(m, x, last);
    var e := x - last;
    UniqueMod(m, e, if e > 0 then 0 else -1, m / 2);
    ModSteps(m, x, last);
    if x % m == last % m { UniqueMod(m, 0, 0, 0); }
    ModSteps(m, x % m, last);
  }

  lemma SubMod(m: int, x: int, y: int)
    requires m > 0
    ensures (x % m - y) % m == (x - y) % m
  {
    assert x == m * (x / m) + x % m;
    ShiftMod(m, x % m - y, x / m);
  }

  // ---- whole sequences ----

  /** What a run of the unwrapper returns. */
  function Unwrapped(m: int, last: nat, vals: seq<nat>): seq<int>
    requires m > 0 && m % 2 == 0 && forall i :: 0 <= i < |vals| ==> vals[i] < m
    decreases |vals|
  {
    if vals == [] then []
    else
      UnwrapIsCongruent(m, last, vals[0]);
      var r := Unwrap(m, last, vals[0]);
      [r] + Unwrapped(m, r, vals[1..])
  }

  function LowParts(m: int, xs: seq<nat>): (vals: seq<nat>)
    requires m > 0
    ensures |vals| == |xs| && forall i :: 0 <= i < |xs| ==> vals[i] == xs[i] % m
  {
    seq(|xs|, i requires 0 <= i < |xs| => xs[i] % m)
  }

  /** Each number is near the one before it, the first near last. */
  predicate Smooth(m: int, last: nat, xs: seq<nat>)
    requires m > 0
    decreases |xs|
  {
    xs == [] || (Near(m, last, xs[0]) && Smooth(m, xs[0], xs[1..]))
  }

  /** A run returns the original sequence if and only if every step of it is near. */
  lemma {:induction false} RunRecoversIffSmooth(m: int, last: nat, xs: seq<nat>)
    requires m > 0 && m % 2 == 0
    ensures Unwrapped(m, last, LowParts(m, xs)) == xs <==> Smooth(m, last, xs)
    decreases |xs|
  {
    if xs != [] {
      var vals := LowParts(m, xs);
      RecoveredIffNear(m, last, xs[0]);
      UnwrapIsCongruent(m, last, vals[0]);
      var r := Unwrap(m, last, vals[0]);
      assert vals[1..] == LowParts(m, xs[1..]);
      if r == xs[0] {
        RunRecoversIffSmooth(m, xs[0], xs[1..]);
        assert Unwrapped(m, last, vals) == [r] + Unwrapped(m, r, vals[1..]);
        assert xs == [xs[0]] + xs[1..];
        if Unwrapped(m, last, vals) == xs { assert Unwrapped(m, last, vals)[1..] == xs[1..]; }
      } else {
        assert Unwrapped(m, last, vals)[0] == r;
      }
    }
  }

  /** In particular a sequence that starts below the modulus and moves by less than half of it is recovered. */
  lemma {:induction false} SmallStepsAreSmooth(m: int, last: nat, xs: seq<nat>)
    requires m > 0 && m % 2 == 0
    requires xs != [] ==> (last == 0 && xs[0] < m) || SmallStep(m, last, xs[0])
    requires forall i :: 0 <= i < |xs| - 1 ==> SmallStep(m, xs[i], xs[i + 1])
    ensures Smooth(m, last, xs)
    decreases |xs|
  {
    if xs != [] {
      var rest := xs[1..];
      forall i | 0 <= i < |rest| - 1 ensures SmallStep(m, rest[i], rest[i + 1]) {
        assert SmallStep(m, xs[i + 1], xs[i + 2]);
      }
      if rest != [] { assert SmallStep(m, xs[0], xs[1]); }
      SmallStepsAreSmooth(m, xs[0], rest);
    }
  }

  predicate SmallStep(m: int, x: nat, y: nat) { -m < 2 * (y - x) < m }
}

/** The two widths as the source computes them, with their different integer promotions. */
module Unwrappers {
  import opened Unwrapping

  type uint16 = x: nat | x < M16
  type uint32 = x: nat | x < M32

  /** wrap16_is_newer: the difference is a signed int. */
  predicate IsNewer16(val: uint16, prev: uint16) {
    if val - prev == M16 / 2 then val > prev
    else val != prev && (val - prev) % M16 < M16 / 2
  }

  /** wrap32_is_newer: the difference wraps around as an unsigned 32-bit word. */
  predicate IsNewer32(val: uint32, prev: uint32) {
    if (val - prev) % M32 == M32 / 2 then val > prev
    else val != prev && (val - prev) % M32 < M32 / 2
  }

  class Unwrapper {
    const size: nat
    var lastValue: int

    ghost predicate Valid()
      reads this
    {
      lastValue >= 0 && size in {2, 4}
    }

    constructor Init16()
      ensures Valid() && size == 2 && lastValue == 0
    {
      size, lastValue := 2, 0;
    }

    constructor Init32()
      ensures Valid() && size == 4 && lastValue == 0
    {
      size, lastValue := 4, 0;
    }

    method Wrap16(val: uint16) returns (r: int)
      requires Valid() && size == 2
      modifies this`lastValue
      ensures Valid() && r == lastValue == Unwrap(M16, old(lastValue), val)
    {
      var cropped: uint16 := lastValue % M16;
      var delta: int := val - cropped;
      SignedDifference(M16, val, cropped);
      if IsNewer16(val, cropped) {
        if delta < 0 {
          delta := delta + M16;
        }
      } else if delta > 0 && lastValue + delta - M16 >= 0 {
        delta := delta - M16;
      }
      UnwrapIsCongruent(M16, lastValue, val);
      lastValue := lastValue + delta;
      r := lastValue;
    }

    /** The 64-bit delta is the unsigned 32-bit difference, never negative. */
    method Wrap32(val: uint32) returns (r: int)
      requires Valid() && size == 4
      modifies this`lastValue
      ensures Valid() && r == lastValue == Unwrap(M32, old(lastValue), val)
    {
      var cropped: uint32 := lastValue % M32;
      var delta: int := (val - cropped) % M32;
      SignedDifference(M32, val, cropped);
      if IsNewer32(val, cropped) {
        if delta < 0 {
          delta := delta + M32;
        }
      } else if delta > 0 && lastValue + delta - M32 >= 0 {
        delta := delta - M32;
      }
      UnwrapIsCongruent(M32, lastValue, val);
      lastValue := lastValue + delta;
      r := lastValue;
    }
  }

  lemma SignedDifference(m: int, val: nat, prev: nat)
    requires m > 0 && val < m && prev < m
    ensures (val - prev) % m == if val >= prev then val - prev else val - prev + m
  {
  }
}
