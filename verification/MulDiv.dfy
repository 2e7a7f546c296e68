// Time-format arithmetic (ReCapABR/sim_test/echo/baseclasses/arithutil.cpp).

/** Machine words, and what a truncating division of wide integers is. */
module WideArithmetic {

  const W: nat := 0x1_0000_0000
  const Q: nat := 0x1_0000_0000_0000_0000
  const QQ: nat := 0x1_0000_0000_0000_0000_0000_0000_0000_0000
  const WQ: nat := 0x1_0000_0000_0000_0000_0000_0000
  const MIN64: int := -0x8000_0000_0000_0000
  const MAX64: int := 0x7FFF_FFFF_FFFF_FFFF

  type dword = x: nat | x < W
  type qword = x: nat | x < Q
  type int32 = x: int | -0x8000_0000 <= x < 0x8000_0000
  type int64 = x: int | MIN64 <= x <= MAX64

  // ---- the two halves of a ULARGE_INTEGER ----

  function Low(q: qword): dword { q % W }

  function High(q: qword): dword { q / W }

  function Make(low: dword, high: dword): (q: qword)
    ensures Low(q) == low && High(q) == high
  {
    high * W + low
  }

  /** Reading the bits of an unsigned word as a signed one. */
  function Signed(q: qword): int64 {
    if q <= MAX64 then q else q - Q
  }

  /** The signed 64-bit word congruent to n. */
  function Wrap(n: int): int64 { Signed(n % Q) }

  // ---- division ----

  function Abs(n: int): nat { if n < 0 then -n else n }

  function SignedBy(n: int, negate: bool): int { if negate then -n else n }

  /** n / c, rounded toward zero. */
  function Truncated(n: int, c: int): int
    requires c != 0
  {
    var q := Abs(n) / Abs(c);
    if (n < 0) != (c < 0) then -q else q
  }

  lemma Quotient(n: int, c: int, q: int, r: int)
    requires c > 0 && 0 <= r < c && n == q * c + r
    ensures n / c == q && n % c == r
  {
    var d := n / c - q;
    assert n == c * (n / c) + n % c;
    assert c * d == r - n % c by { assert c * d == c * (n / c) - c * q; }
    if d > 0 { AtLeast(d, c); }
    if d < 0 { AtLeast(-d, c); }
  }

  lemma AtLeast(d: int, c: int)
    requires d > 0 && c > 0
    ensures c * d >= c
  {
  }

  /** The remainder is smaller than the divisor and has the sign of the dividend. */
  lemma TruncatedMeaning(n: int, c: int)
    requires c != 0
    ensures var r := n - Truncated(n, c) * c; Abs(r) < Abs(c) && (r == 0 || (r < 0 <==> n < 0))
  {
  }

  /** What the two routines return for the dividend n: saturated, or the low 64 bits of the quotient. */
  function Clipped(n: int, c: int, zeroSign: bool): int64 {
    if c == 0 || Abs(n) / Abs(c) >= Q then (if Negative(n, c, zeroSign) then MIN64 else MAX64)
    else Wrap(Truncated(n, c))
  }

  /** The sign the routines give to n / c; that of a zero n is the sign of the product. */
  predicate Negative(n: int, c: int, zeroSign: bool) {
    (if n == 0 then zeroSign else n < 0) != (c < 0)
  }

  /** The result is the quotient exactly when the quotient fits in 64 bits. */
  lemma ExactIffItFits(n: int, c: int, zeroSign: bool)
    requires c != 0
    ensures Clipped(n, c, zeroSign) == Truncated(n, c) <==> MIN64 <= Truncated(n, c) <= MAX64
  {
  }

  /** A quotient of 64 bits that does not fit signed comes back with the wrong sign instead of saturated. */
  lemma MiddleRangeFlipsSign(n: int, c: int, zeroSign: bool)
    requires c != 0 && MAX64 < Abs(n) / Abs(c) < Q && Truncated(n, c) != MIN64
    ensures Clipped(n, c, zeroSign) < 0 <==> Truncated(n, c) > 0
    ensures Clipped(n, c, zeroSign) != 0
  {
  }

  /** Beyond 64 bits the result is the nearest representable value. */
  lemma LargeQuotientsSaturate(n: int, c: int, zeroSign: bool)
    requires c != 0 && Abs(n) / Abs(c) >= Q
    ensures Clipped(n, c, zeroSign) == if Truncated(n, c) < 0 then MIN64 else MAX64
  {
  }
}

/** The two routines, word by word. */
module MulDiv {
  import opened WideArithmetic

  // ---- multiplication ----

  lemma Bilinear(ah: nat, al: nat, bh: nat, bl: nat)
    ensures (ah * W + al) * (bh * W + bl) == ah * bh * Q + (ah * bl + al * bh) * W + al * bl
  {
  }

  lemma ProductBound(x: nat, y: nat, m: nat, n: nat)
    requires x <= m && y <= n
    ensures x * y <= m * n
  {
  }

  /** Adding up the columns of the multiplication, carries included. */
  lemma Columns(hh: nat, cross: nat, ll: nat)
    ensures (hh + (cross + ll / W) / W) * Q + ((cross + ll / W) % W * W + ll % W) == hh * Q + cross * W + ll
  {
  }

  lemma Halves(u: qword, v: qword)
    requires u <= -MIN64 && v <= -MIN64
    ensures Low(u) * Low(v) < Q && Low(u) * High(v) + High(u) * Low(v) + (W - 1) < Q
    ensures High(u) * High(v) <= W / 2 * (W / 2)
    ensures u * v == High(u) * High(v) * Q + (Low(u) * High(v) + High(u) * Low(v)) * W + Low(u) * Low(v)
    ensures u * v <= MIN64 * MIN64
  {
    ProductBound(Low(u), Low(v), W - 1, W - 1);
    ProductBound(Low(u), High(v), W - 1, W / 2);
    ProductBound(High(u), Low(v), W / 2, W - 1);
    ProductBound(High(u), High(v), W / 2, W / 2);
    ProductBound(u, v, -MIN64, -MIN64);
    Bilinear(High(u), Low(u), High(v), Low(v));
  }

  /** Adds up the columns of a long multiplication, handing the carries on. */
  method AddColumns(hh: nat, cross: nat, ll: qword) returns (p0: qword, p1: qword)
    requires cross + (W - 1) < Q && hh + W <= Q
    ensures p1 * Q + p0 == hh * Q + cross * W + ll
  {
    Columns(hh, cross, ll);
    var x: qword := cross + High(ll);
    p0 := Make(Low(ll), Low(x));
    p1 := hh + High(x);
  }

  /** The long multiplication: the sum of the cross products never leaves 64 bits. */
  method LongMultiply(ua: qword, ub: qword) returns (p0: qword, p1: qword)
    requires ua <= -MIN64 && ub <= -MIN64
    ensures p1 * Q + p0 == ua * ub
    ensures p1 <= 0x4000_0000_0000_0000
  {
    Halves(ua, ub);
    p0, p1 := AddColumns(High(ua) * High(ub), Low(ua) * High(ub) + High(ua) * Low(ub), Low(ua) * Low(ub));
  }

  // ---- the addend ----

  /** d or -d as a sign-extended 128-bit word. */
  method SignExtend(d: int64, negate: bool) returns (u0: qword, u1: qword)
    ensures u1 * Q + u0 == SignedBy(d, negate) % QQ
  {
    if negate {
      u0 := SignedBy(d, true) % Q;
      u1 := if d > 0 then Q - 1 else 0;
    } else {
      u0 := d % Q;
      u1 := if d < 0 then Q - 1 else 0;
    }
    ghost var v := SignedBy(d, negate);
    if v < 0 {
      Quotient(v, Q, -1, v + Q);
      Quotient(v, QQ, -1, v + QQ);
    } else {
      Quotient(v, Q, 0, v);
      Quotient(v, QQ, 0, v);
    }
  }

  /** The low 64 bits of the extended addition, double word by double word with the carries handed on. */
  method AddLow(p0: qword, u0: qword) returns (s0: qword, carry: qword)
    ensures carry * Q + s0 == p0 + u0
  {
    s0 := p0;
    var total: qword := Low(u0) + Low(s0);
    s0 := Make(Low(total), High(s0));
    total := Make(High(total), 0);
    total := total + High(u0) + High(s0);
    s0 := Make(Low(s0), Low(total));
    carry := Make(High(total), 0);
  }

  method ExtendedAdd(p0: qword, p1: qword, u0: qword, u1: qword) returns (s0: qword, s1: qword)
    ensures s1 * Q + s0 == (p1 * Q + p0 + u1 * Q + u0) % QQ
  {
    var carry;
    s0, carry := AddLow(p0, u0);
    s1 := (p1 + (u1 + carry) % Q) % Q;
    ghost var sum := p1 + u1 + carry;
    assert s1 == if sum >= Q then sum - Q else sum;
    Quotient(p1 * Q + p0 + u1 * Q + u0, QQ, if sum >= Q then 1 else 0, s1 * Q + s0);
  }

  /** The 128-bit negation. */
  method Negate(p0: qword, p1: qword) returns (n0: qword, n1: qword)
    requires p1 * Q + p0 != 0
    ensures n1 * Q + n0 == QQ - (p1 * Q + p0)
  {
    n0 := Q - 1 - p0;
    n1 := Q - 1 - p1;
    n0 := (n0 + 1) % Q;
    n1 := (n1 + if n0 == 0 then 1 else 0) % Q;
  }

  /** Adds d to a product of the given sign: magnitude and sign of the sum. */
  method AddSigned(p0: qword, p1: qword, sign: bool, d: int64) returns (m0: qword, m1: qword, negative: bool)
    requires p1 <= 0x4000_0000_0000_0000
    ensures var p := p1 * Q + p0; var n := SignedBy(p, sign) + d;
      && m1 * Q + m0 == Abs(n)
      && negative == (if n == 0 then sign else n < 0)
  {
    m0, m1, negative := p0, p1, sign;
    if d != 0 {
      var u0, u1 := SignExtend(d, sign);
      m0, m1 := ExtendedAdd(m0, m1, u0, u1);
      ghost var v := SignedBy(d, sign);
      SumModulo(p1 * Q + p0, v, u1 * Q + u0, m1 * Q + m0, QQ);
      if m1 >= 0x8000_0000_0000_0000 {
        negative := !negative;
        m0, m1 := Negate(m0, m1);
      }
    }
  }

  /** Adding a sign-extended word modulo m yields the sum, or m more if the sum is negative. */
  lemma SumModulo(p: nat, v: int, u: nat, s: nat, m: nat)
    requires p < m && 0 <= m + v && v < m && p + v < m
    requires u == v % m && s == (p + u) % m
    ensures s == if p + v < 0 then p + v + m else p + v
  {
    if v < 0 {
      Quotient(v, m, -1, v + m);
      if p + v < 0 { Quotient(p + u, m, 0, p + v + m); } else { Quotient(p + u, m, 1, p + v); }
    } else {
      Quotient(v, m, 0, v);
      Quotient(p + u, m, 0, p + v);
    }
  }

  // ---- division ----

  method QuotientAndRemainder(n: qword, c: qword) returns (q: qword, r: qword)
    requires c > 0
    ensures n == q * c + r && r < c
  {
    q, r := n / c, n % c;
  }

  /** Two divisions of 64 by 32 bits divide 96 bits, given as three digits, by 32 bits. */
  method DivideDigits(top: dword, high: dword, low: dword, uc: dword) returns (q: qword)
    requires top < uc
    ensures q == (top * Q + (high * W + low)) / uc
  {
    var h, r := QuotientAndRemainder(Make(high, top), uc);
    var l, s := QuotientAndRemainder(Make(low, r), uc);
    TwoSteps(top, high, low, uc, h, r, l, s);
    q := Make(l, h);
  }

  lemma Rejoin(q: qword)
    ensures q == High(q) * W + Low(q)
  {
  }

  /** The path for a divisor of 32 bits. */
  method DivideByDword(p0: qword, p1: qword, uc: qword) returns (q: qword)
    requires p1 < uc < W
    ensures q == (p1 * Q + p0) / uc
  {
    q := DivideDigits(p1, High(p0), Low(p0), uc);
    Rejoin(p0);
  }

  lemma SmallQuotient(n: nat, c: nat, q: nat, bound: nat)
    requires c > 0 && n < bound * c && q * c <= n
    ensures q < bound
  {
  }

  /** Long division in base W: p1 and high give the digit h and the rest r, which with low gives l and s. */
  lemma TwoSteps(p1: nat, high: nat, low: nat, c: nat, h: nat, r: nat, l: nat, s: nat)
    requires p1 < c && high < W && low < W
    requires p1 * W + high == h * c + r && r < c
    requires r * W + low == l * c + s && s < c
    ensures h < W && l < W
    ensures (p1 * Q + (high * W + low)) / c == h * W + l
  {
    SmallQuotient(p1 * W + high, c, h, W);
    SmallQuotient(r * W + low, c, l, W);
    assert (h * W + l) * c == h * c * W + l * c;
    Quotient(p1 * Q + (high * W + low), c, h * W + l, s);
  }

  function Pow2(i: nat): (e: nat)
    ensures e > 0
  {
    if i == 0 then 1 else 2 * Pow2(i - 1)
  }

  /** The bit of p0 that a shift moves into the high word. */
  function TopBit(p0: nat): nat { if 2 * p0 >= Q then 1 else 0 }

  /** i steps of the shift-and-subtract loop: e is 2 to the i, top the bits of n0 moved into p1 so far. */
  predicate Shifted(n0: nat, n1: nat, uc: nat, e: nat, top: nat, p0: nat, p1: nat, q: nat) {
    && n0 * e == top * Q + p0 && p0 < Q
    && n1 * e + top == q * uc + p1 && p1 < uc
    && q < e
  }

  /** One more step, given what it makes of the words. */
  lemma ShiftStep(n0: nat, n1: nat, uc: nat, e: nat, top: nat, p0: nat, p1: nat, q: nat,
                  s0: nat, s1: nat, r: nat)
    requires Shifted(n0, n1, uc, e, top, p0, p1, q)
    requires s0 == 2 * p0 - TopBit(p0) * Q
    requires var t := 2 * p1 + TopBit(p0);
      s1 == (if uc <= t then t - uc else t) && r == (if uc <= t then 2 * q + 1 else 2 * q)
    ensures Shifted(n0, n1, uc, 2 * e, 2 * top + TopBit(p0), s0, s1, r)
  {
    Doubled(n0, e);
    Doubled(n1, e);
    Doubled(uc, q);
    assert (2 * q + 1) * uc == 2 * (q * uc) + uc;
  }

  lemma Doubled(n: nat, e: nat)
    ensures n * (2 * e) == 2 * (n * e) && (2 * e) * n == 2 * (e * n)
  {
  }

  lemma ShiftEnd(n0: nat, n1: nat, uc: nat, top: nat, p0: nat, p1: nat, q: nat)
    requires Shifted(n0, n1, uc, Q, top, p0, p1, q)
    ensures (n1 * Q + n0) / uc == q
  {
    Quotient(n1 * Q + n0, uc, q, p1);
  }

  lemma Pow2Next4(i: nat)
    ensures Pow2(i + 4) == 16 * Pow2(i)
  {
    assert Pow2(i + 2) == 4 * Pow2(i);
  }

  lemma Pow2Next16(i: nat)
    ensures Pow2(i + 16) == 0x1_0000 * Pow2(i)
  {
    Pow2Next4(i);
    Pow2Next4(i + 4);
    Pow2Next4(i + 8);
    Pow2Next4(i + 12);
  }

  lemma Pow2Values()
    ensures Pow2(64) == Q
  {
    Pow2Next16(0);
    Pow2Next16(16);
    Pow2Next16(32);
    Pow2Next16(48);
  }

  lemma {:induction false} Pow2Grows(i: nat, j: nat)
    requires i <= j
    ensures Pow2(i) <= Pow2(j)
  {
    if i < j { Pow2Grows(i, j - 1); }
  }

  /** Shifts 128 bits left by one. */
  method ShiftLeft(p0: qword, p1: qword) returns (s0: qword, s1: qword)
    requires p1 < Q / 2
    ensures s0 == 2 * p0 - TopBit(p0) * Q && s1 == 2 * p1 + TopBit(p0)
  {
    s1 := 2 * p1 % Q;
    if High(p0) >= 0x8000_0000 {
      s1 := Make((Low(s1) + 1) % W, High(s1));
    }
    s0 := 2 * p0 % Q;
  }

  /** One round of shift, compare and subtract. */
  method DivideRound(ghost n0: nat, ghost n1: nat, uc: qword, ghost e: nat, ghost top: nat,
                     p0: qword, p1: qword, q: qword)
      returns (s0: qword, s1: qword, r: qword)
    requires uc <= -MIN64 && 2 * e <= Q && Shifted(n0, n1, uc, e, top, p0, p1, q)
    ensures Shifted(n0, n1, uc, 2 * e, 2 * top + TopBit(p0), s0, s1, r)
  {
    Quotient(2 * q, Q, 0, 2 * q);
    r := 2 * q % Q;
    s0, s1 := ShiftLeft(p0, p1);
    if uc <= s1 {
      s1 := s1 - uc;
      r := r + 1;
    }
    ShiftStep(n0, n1, uc, e, top, p0, p1, q, s0, s1, r);
  }

  /** The general path: 64 rounds. */
  method LongDivide(n0: qword, n1: qword, uc: qword) returns (q: qword)
    requires n1 < uc <= -MIN64
    ensures q == (n1 * Q + n0) / uc
  {
    q := 0;
    var p0: qword, p1: qword := n0, n1;
    ghost var top: nat := 0;
    Pow2Values();
    for i := 0 to 64
      invariant Shifted(n0, n1, uc, Pow2(i), top, p0, p1, q)
    {
      Pow2Grows(i + 1, 64);
      ghost var bit := TopBit(p0);
      p0, p1, q := DivideRound(n0, n1, uc, Pow2(i), top, p0, p1, q);
      top := 2 * top + bit;
    }
    ShiftEnd(n0, n1, uc, top, p0, p1, q);
  }

  /** The choice among the three paths. */
  method Divide(p0: qword, p1: qword, uc: qword) returns (q: qword)
    requires p1 < uc <= -MIN64
    ensures q == (p1 * Q + p0) / uc
  {
    if p1 == 0 {
      ghost var r;
      q, r := QuotientAndRemainder(p0, uc);
      Quotient(p0, uc, q, r);
    } else if High(uc) == 0 {
      q := DivideByDword(p0, p1, uc);
    } else {
      q := LongDivide(p0, p1, uc);
    }
  }

  /** The overflow test: comparing the high word decides whether the quotient fits in 64 bits. */
  lemma OverflowTest(p0: qword, p1: qword, uc: nat)
    requires uc > 0
    ensures uc <= p1 <==> (p1 * Q + p0) / uc >= Q
  {
    var n := p1 * Q + p0;
    assert n == n / uc * uc + n % uc;
    if uc <= p1 {
      if n / uc < Q { ProductBound(n / uc, uc, Q - 1, uc); }
    } else {
      SmallQuotient(n, uc, n / uc, Q);
    }
  }

  /** What is left to do once the magnitude of the dividend is known. */
  lemma Outcome(n: int, c: int, zeroSign: bool, p0: qword, p1: qword)
    requires p1 * Q + p0 == Abs(n)
    ensures Abs(c) <= p1 ==> Clipped(n, c, zeroSign) == if Negative(n, c, zeroSign) then MIN64 else MAX64
    ensures Abs(c) > p1 ==> var q := (p1 * Q + p0) / Abs(c);
      Clipped(n, c, zeroSign) == Wrap(SignedBy(q, Negative(n, c, zeroSign)))
  {
    if c != 0 { OverflowTest(p0, p1, Abs(c)); }
    if n == 0 && c != 0 { Quotient(0, Abs(c), 0, 0); }
  }

  /** The sign of the product as the routines keep it. */
  predicate ProductSign(a: int, b: int) { (a < 0) != (b < 0) }

  lemma MagnitudeOfProduct(a: int, b: int)
    ensures Abs(a) * Abs(b) == Abs(a * b)
    ensures a * b == SignedBy(Abs(a) * Abs(b), ProductSign(a, b))
  {
  }

  /** (a * b + d) / c, for all inputs. */
  method LlMulDiv(a: int64, b: int64, c: int64, d: int64) returns (r: int64)
    ensures r == Clipped(a * b + d, c, ProductSign(a, b))
  {
    MagnitudeOfProduct(a, b);
    var p0, p1 := LongMultiply(Abs(a), Abs(b));
    var negative := ProductSign(a, b);
    p0, p1, negative := AddSigned(p0, p1, negative, d);
    if c < 0 {
      negative := !negative;
    }
    Outcome(a * b + d, c, ProductSign(a, b), p0, p1);
    if Abs(c) <= p1 {
      return if negative then MIN64 else MAX64;
    }
    var q := Divide(p0, p1, Abs(c));
    r := SignResult(q, negative);
  }

  lemma NegatedModulo(s: int, q: nat)
    requires q < Q && (s == q || s == q - Q)
    ensures SignedBy(s, true) % Q == SignedBy(q, true) % Q
  {
  }

  /** The cast to a signed word and its negation. */
  method SignResult(q: qword, negative: bool) returns (r: int64)
    ensures r == Wrap(SignedBy(q, negative))
  {
    var s := Signed(q);
    r := Signed(SignedBy(s, negative) % Q);
    Quotient(q, Q, 0, q);
    if negative {
      NegatedModulo(s, q);
    }
  }

  // ---- the 96-bit routine ----

  lemma Halves96(u: qword, v: dword)
    requires u <= -MIN64 && v <= W / 2
    ensures Low(u) * v < Q && High(u) * v <= W / 2 * (W / 2)
    ensures u * v == High(u) * v * W + Low(u) * v
  {
    Rejoin(u);
    ProductBound(Low(u), v, W - 1, W / 2);
    ProductBound(High(u), v, W / 2, W / 2);
    Distribute(High(u), Low(u), v);
  }

  lemma Distribute(h: nat, l: nat, v: nat)
    ensures (h * W + l) * v == h * v * W + l * v
  {
  }

  method LongMultiply96(ua: qword, ub: dword) returns (p0: qword, p1: dword)
    requires ua <= -MIN64 && ub <= W / 2
    ensures p1 * Q + p0 == ua * ub
    ensures p1 <= 0x4000_0000
  {
    Halves96(ua, ub);
    Rejoin(ua);
    var low: qword := Low(ua) * ub;
    if High(ua) != 0 {
      p0, p1 := AddColumns96(High(ua) * ub, low);
    } else {
      p0, p1 := low, 0;
    }
  }

  method AddColumns96(cross: nat, ll: qword) returns (p0: qword, p1: dword)
    requires cross <= W / 2 * (W / 2)
    ensures p1 * Q + p0 == cross * W + ll
    ensures p1 <= 0x4000_0000
  {
    var high;
    p0, high := AddColumns(0, cross, ll);
    p1 := high;
  }

  /** d or -d as a sign-extended 96-bit word. */
  method SignExtend96(d: int32, negate: bool) returns (u0: qword, u1: dword)
    ensures u1 * Q + u0 == SignedBy(d, negate) % WQ
  {
    u0 := SignedBy(d, negate) % Q;
    u1 := if SignedBy(d, negate) < 0 then W - 1 else 0;
    ghost var v := SignedBy(d, negate);
    Quotient(v, Q, if v < 0 then -1 else 0, if v < 0 then v + Q else v);
    Quotient(v, WQ, if v < 0 then -1 else 0, if v < 0 then v + WQ else v);
  }

  method ExtendedAdd96(p0: qword, p1: dword, u0: qword, u1: dword) returns (s0: qword, s1: dword)
    ensures s1 * Q + s0 == (p1 * Q + p0 + u1 * Q + u0) % WQ
  {
    var carry;
    s0, carry := AddLow(p0, u0);
    s1 := (p1 + (u1 + Low(carry)) % W) % W;
    ghost var sum := p1 + u1 + carry;
    assert s1 == if sum >= W then sum - W else sum;
    Quotient(p1 * Q + p0 + u1 * Q + u0, WQ, if sum >= W then 1 else 0, s1 * Q + s0);
  }

  method Negate96(p0: qword, p1: dword) returns (n0: qword, n1: dword)
    requires p1 * Q + p0 != 0
    ensures n1 * Q + n0 == WQ - (p1 * Q + p0)
  {
    n0 := Q - 1 - p0;
    n1 := W - 1 - p1;
    n0 := (n0 + 1) % Q;
    n1 := (n1 + if n0 == 0 then 1 else 0) % W;
  }

  method AddSigned96(p0: qword, p1: dword, sign: bool, d: int32) returns (m0: qword, m1: dword, negative: bool)
    requires p1 <= 0x4000_0000
    ensures var p := p1 * Q + p0; var n := SignedBy(p, sign) + d;
      && m1 * Q + m0 == Abs(n)
      && negative == (if n == 0 then sign else n < 0)
  {
    m0, m1, negative := p0, p1, sign;
    if d != 0 {
      var u0, u1 := SignExtend96(d, sign);
      m0, m1 := ExtendedAdd96(m0, m1, u0, u1);
      ghost var v := SignedBy(d, sign);
      SumModulo(p1 * Q + p0, v, u1 * Q + u0, m1 * Q + m0, WQ);
      if m1 >= 0x8000_0000 {
        negative := !negative;
        m0, m1 := Negate96(m0, m1);
      }
    }
  }

  /** The division of 96 by 32 bits, which skips the first step when it would give no digit. */
  method Divide96(p0: qword, p1: dword, uc: dword) returns (q: qword)
    requires p1 < uc
    ensures q == (p1 * Q + p0) / uc
  {
    var dividend := Make(High(p0), p1);
    var h, r := 0, High(p0);
    if dividend >= uc {
      h, r := QuotientAndRemainder(dividend, uc);
    }
    SmallQuotient(dividend, uc, h, W);
    var l, s := QuotientAndRemainder(Make(Low(p0), r), uc);
    TwoSteps(p1, High(p0), Low(p0), uc, h, r, l, s);
    Rejoin(p0);
    q := Make(l, h);
  }

  /** (a * b + d) / c for a 64-bit a and 32-bit b, c and d. */
  method Int64x32Div32(a: int64, b: int32, c: int32, d: int32) returns (r: int64)
    ensures r == Clipped(a * b + d, c, ProductSign(a, b))
  {
    MagnitudeOfProduct(a, b);
    var p0, p1 := LongMultiply96(Abs(a), Abs(b));
    var negative := ProductSign(a, b);
    p0, p1, negative := AddSigned96(p0, p1, negative, d);
    if c < 0 {
      negative := !negative;
    }
    Outcome(a * b + d, c, ProductSign(a, b), p0, p1);
    if Abs(c) <= p1 {
      return if negative then MIN64 else MAX64;
    }
    var q := Divide96(p0, p1, Abs(c));
    r := SignResult(q, negative);
  }
}
