// The confidence table and the bitrate chosen from it (ReCapABR/sim_test/sim_sender/confidence.cpp), over the reals.

/** One row of the table as a piecewise linear curve, and the adjusted bitrate. */
module ConfidenceCurves {

  const FLAT: real := 0.000000000001
  const SLACK: real := 0.000000001

  function AbsR(x: real): real { if x < 0.0 then -x else x }

  function Lerp(x: real, x0: real, x1: real, y0: real, y1: real): real {
    if AbsR(x1 - x0) < FLAT then y0 else y0 + (x - x0) / (x1 - x0) * (y1 - y0)
  }

  function Ceil(x: real): (n: int)
    ensures x <= n as real < x + 1.0
  {
    var f := x.Floor;
    if f as real == x then f else f + 1
  }

  /** Tiers are strictly increasing and there is a confidence for each. */
  predicate TableOk(tiers: seq<int>, confs: seq<real>) {
    && |tiers| == |confs| > 0
    && forall i, j :: 0 <= i < j < |tiers| ==> tiers[i] < tiers[j]
  }

  /** std::upper_bound: the first tier above x. */
  function UpperBound(tiers: seq<int>, x: real): (k: nat)
    ensures k <= |tiers|
    ensures forall i :: 0 <= i < k ==> tiers[i] as real <= x
    ensures k < |tiers| ==> tiers[k] as real > x
  {
    if tiers == [] || tiers[0] as real > x then 0 else 1 + UpperBound(tiers[1..], x)
  }

  function Segment(tiers: seq<int>, confs: seq<real>, k: nat, x: real): real
    requires |tiers| == |confs| && 0 < k < |tiers|
  {
    Lerp(x, tiers[k - 1] as real, tiers[k] as real, confs[k - 1], confs[k])
  }

  /** interpolateConfidence, for any real bitrate. */
  function Curve(tiers: seq<int>, confs: seq<real>, x: real): real {
    if tiers == [] || |confs| != |tiers| then 0.0
    else if x <= tiers[0] as real then confs[0]
    else if x >= tiers[|tiers| - 1] as real then confs[|confs| - 1]
    else
      var k := UpperBound(tiers, x);
      if 0 < k < |tiers| then Segment(tiers, confs, k, x) else 0.0
  }

  function Confidence(tiers: seq<int>, confs: seq<real>, bitrate: int): real {
    Curve(tiers, confs, bitrate as real)
  }

  /** The first tier that meets the threshold, or the number of tiers. */
  function FirstMeeting(confs: seq<real>, threshold: real): (a: nat)
    ensures a <= |confs|
    ensures forall i :: 0 <= i < a ==> confs[i] < threshold
    ensures a < |confs| ==> confs[a] >= threshold
  {
    if confs == [] || confs[0] >= threshold then 0 else 1 + FirstMeeting(confs[1..], threshold)
  }

  function Between(lo: real, hi: real, t: real): real { lo + t * (hi - lo) }

  /** The inverse of the curve at the threshold, before the segment that ends in tier a is rounded up. */
  function Crossing(tiers: seq<int>, confs: seq<real>, threshold: real, a: nat): real
    requires |tiers| == |confs| && a < |tiers|
  {
    if a == 0 then tiers[0] as real
    else
      var lo, hi := tiers[a - 1] as real, tiers[a] as real;
      if AbsR(confs[a] - confs[a - 1]) < FLAT then hi
      else
        var t := (threshold - confs[a - 1]) / (confs[a] - confs[a - 1]);
        Between(lo, hi, if t > 1.0 then 1.0 else if t < 0.0 then 0.0 else t)
  }

  function Target(tiers: seq<int>, confs: seq<real>, threshold: real, a: nat): int
    requires |tiers| == |confs| && a < |tiers|
  {
    Ceil(Crossing(tiers, confs, threshold, a) + SLACK)
  }

  function NextTierAbove(tiers: seq<int>, bitrate: int): int
    requires tiers != []
  {
    var k := UpperBound(tiers, bitrate as real);
    if k == |tiers| then tiers[|tiers| - 1] else tiers[k]
  }

  function Min(x: int, y: int): int { if x < y then x else y }

  /** AdjustBitrate on one row. */
  function Adjusted(tiers: seq<int>, confs: seq<real>, current: int, cc: int, threshold: real): int
    requires TableOk(tiers, confs)
  {
    if current > cc then cc
    else if Confidence(tiers, confs, current) >= threshold then current
    else
      var a := FirstMeeting(confs, threshold);
      if a == |confs| then
        Min(cc, if current < tiers[|tiers| - 1] then NextTierAbove(tiers, current) else current)
      else Min(cc, Target(tiers, confs, threshold, a))
  }

  // ---- lines ----

  lemma Times(a: real, b: real, c: real)
    requires c > 0.0
    ensures a < b ==> a * c < b * c
    ensures a <= b ==> a * c <= b * c
  {
  }

  lemma DivTimes(a: real, b: real)
    requires b > 0.0
    ensures a / b * b == a
  {
  }

  /** A rising line through (x0, y0) and (x1, y1) is below y exactly left of the place where it reaches y. */
  lemma LerpCrosses(x: real, x0: real, x1: real, y0: real, y1: real, y: real)
    requires x1 - x0 >= FLAT && y0 < y1
    ensures var t := (y - y0) / (y1 - y0);
      Lerp(x, x0, x1, y0, y1) < y <==> x < x0 + t * (x1 - x0)
  {
  }

  lemma LerpBelow(x: real, x0: real, x1: real, y0: real, y1: real, y: real)
    requires x0 <= x <= x1 && x1 - x0 >= FLAT && y0 < y && y1 < y
    ensures Lerp(x, x0, x1, y0, y1) < y
  {
    var w := x1 - x0;
    var s := (x - x0) / w;
    DivTimes(x - x0, w);
    assert 0.0 <= s <= 1.0 by {
      if s < 0.0 { Times(s, 0.0, w); }
      if s > 1.0 { Times(1.0, s, w); }
    }
    Mixes(s, y0, y1, y);
  }

  lemma Mixes(s: real, y0: real, y1: real, y: real)
    requires 0.0 <= s <= 1.0 && y0 < y && y1 < y
    ensures y0 + s * (y1 - y0) < y
  {
    var d0, d1 := y - y0, y - y1;
    var p, q := (1.0 - s) * d0, s * d1;
    assert p >= 0.0 by { NonNegative(1.0 - s, d0); }
    assert q >= 0.0 by { NonNegative(s, d1); }
    assert p + q > 0.0 by {
      if s < 1.0 { Positive(1.0 - s, d0); } else { Positive(s, d1); }
    }
    assert y - (y0 + s * (y1 - y0)) == p + q;
  }

  lemma NonNegative(a: real, b: real)
    requires a >= 0.0 && b >= 0.0
    ensures a * b >= 0.0
  {
  }

  lemma Positive(a: real, b: real)
    requires a > 0.0 && b > 0.0
    ensures a * b > 0.0
  {
  }

  // ---- the curve below and above the threshold ----

  /** Where the curve first meets the threshold: left of it no bitrate does, for any row. */
  lemma BelowCrossing(tiers: seq<int>, confs: seq<real>, threshold: real, x: real)
    requires TableOk(tiers, confs)
    requires var a := FirstMeeting(confs, threshold);
      0 < a < |confs| && confs[a] - confs[a - 1] >= FLAT && x < Crossing(tiers, confs, threshold, a)
    ensures Curve(tiers, confs, x) < threshold
  {
    var a := FirstMeeting(confs, threshold);
    CrossingInSegment(tiers, confs, threshold);
    var k := UpperBound(tiers, x);
    if tiers[0] as real < x {
      assert x < tiers[a] as real && k <= a;
      assert Curve(tiers, confs, x) == Segment(tiers, confs, k, x);
      SegmentBelow(tiers, confs, threshold, k, x);
    }
  }

  lemma SegmentBelow(tiers: seq<int>, confs: seq<real>, threshold: real, k: nat, x: real)
    requires TableOk(tiers, confs)
    requires var a := FirstMeeting(confs, threshold);
      0 < k <= a < |confs| && confs[a] - confs[a - 1] >= FLAT && x < Crossing(tiers, confs, threshold, a)
    requires tiers[k - 1] as real <= x < tiers[k] as real
    ensures Segment(tiers, confs, k, x) < threshold
  {
    var a := FirstMeeting(confs, threshold);
    if k < a {
      LerpBelow(x, tiers[k - 1] as real, tiers[k] as real, confs[k - 1], confs[k], threshold);
    } else {
      CrossingInSegment(tiers, confs, threshold);
      LerpCrosses(x, tiers[a - 1] as real, tiers[a] as real, confs[a - 1], confs[a], threshold);
    }
  }

  lemma CrossingInSegment(tiers: seq<int>, confs: seq<real>, threshold: real)
    requires TableOk(tiers, confs)
    requires var a := FirstMeeting(confs, threshold); 0 < a < |confs| && confs[a] - confs[a - 1] >= FLAT
    ensures var a := FirstMeeting(confs, threshold);
      var t := (threshold - confs[a - 1]) / (confs[a] - confs[a - 1]);
      && tiers[a - 1] as real < Crossing(tiers, confs, threshold, a) <= tiers[a] as real
      && Crossing(tiers, confs, threshold, a) == Between(tiers[a - 1] as real, tiers[a] as real, t)
  {
    var a := FirstMeeting(confs, threshold);
    var lo, hi := tiers[a - 1] as real, tiers[a] as real;
    var t := (threshold - confs[a - 1]) / (confs[a] - confs[a - 1]);
    PartOfWidth(lo, hi, confs[a - 1], confs[a], threshold);
    assert Crossing(tiers, confs, threshold, a) == Between(lo, hi, t);
  }

  lemma PartOfWidth(lo: real, hi: real, y0: real, y1: real, y: real)
    requires lo < hi && y0 < y <= y1
    ensures var t := (y - y0) / (y1 - y0); 0.0 < t <= 1.0 && lo < Between(lo, hi, t) <= hi
  {
    PartOfHeight(y - y0, y1 - y0);
    BetweenIsWithin(lo, hi, (y - y0) / (y1 - y0));
  }

  lemma PartOfHeight(part: real, h: real)
    requires 0.0 < part <= h
    ensures 0.0 < part / h <= 1.0
  {
    var t := part / h;
    DivTimes(part, h);
    if t <= 0.0 { Times(t, 0.0, h); }
    if t > 1.0 { Times(1.0, t, h); }
  }

  lemma BetweenIsWithin(lo: real, hi: real, t: real)
    requires lo < hi && 0.0 < t <= 1.0
    ensures lo < Between(lo, hi, t) <= hi
  {
    var w := hi - lo;
    Positive(t, w);
    NonNegative(1.0 - t, w);
    assert (1.0 - t) * w == w - t * w;
  }

  /** From the crossing up to the tier that meets the threshold, every bitrate meets it, for any row. */
  lemma AboveCrossing(tiers: seq<int>, confs: seq<real>, threshold: real, x: real)
    requires TableOk(tiers, confs)
    requires var a := FirstMeeting(confs, threshold);
      a < |confs| && Crossing(tiers, confs, threshold, a) <= x <= tiers[a] as real
    ensures Curve(tiers, confs, x) >= threshold
  {
    var a := FirstMeeting(confs, threshold);
    if x == tiers[a] as real {
      AtTier(tiers, confs, a);
    } else if a > 0 {
      SegmentMeets(tiers, confs, threshold, x);
      assert tiers[0] < tiers[a] && x < tiers[a] as real <= tiers[|tiers| - 1] as real;
      assert UpperBound(tiers, x) == a;
    }
  }

  lemma SegmentMeets(tiers: seq<int>, confs: seq<real>, threshold: real, x: real)
    requires TableOk(tiers, confs)
    requires var a := FirstMeeting(confs, threshold);
      0 < a < |confs| && Crossing(tiers, confs, threshold, a) <= x < tiers[a] as real
    ensures var a := FirstMeeting(confs, threshold);
      tiers[a - 1] as real < x && Segment(tiers, confs, a, x) >= threshold
  {
    var a := FirstMeeting(confs, threshold);
    assert confs[a] - confs[a - 1] >= FLAT;
    CrossingInSegment(tiers, confs, threshold);
    LerpCrosses(x, tiers[a - 1] as real, tiers[a] as real, confs[a - 1], confs[a], threshold);
  }

  /** At a tier the curve has the tier's confidence. */
  lemma AtTier(tiers: seq<int>, confs: seq<real>, a: nat)
    requires TableOk(tiers, confs) && a < |tiers|
    ensures Curve(tiers, confs, tiers[a] as real) == confs[a]
  {
    var x := tiers[a] as real;
    if 0 < a < |tiers| - 1 {
      assert tiers[0] < tiers[a] < tiers[a + 1] && tiers[a] < tiers[|tiers| - 1];
      assert UpperBound(tiers, x) == a + 1;
      LerpStarts(x, tiers[a + 1] as real, confs[a], confs[a + 1]);
    }
  }

  lemma LerpStarts(x0: real, x1: real, y0: real, y1: real)
    ensures Lerp(x0, x0, x1, y0, y1) == y0
  {
  }

  // ---- minimality ----

  /** The curve does not rise too little to be inverted, and the first tier does not meet the threshold. */
  predicate Invertible(confs: seq<real>, threshold: real) {
    var a := FirstMeeting(confs, threshold);
    0 < a < |confs| && confs[a] - confs[a - 1] >= FLAT
  }

  /** No bitrate more than one below the target meets the threshold. */
  lemma TargetIsAlmostLeast(tiers: seq<int>, confs: seq<real>, threshold: real, b: int)
    requires TableOk(tiers, confs) && Invertible(confs, threshold)
    requires b < Target(tiers, confs, threshold, FirstMeeting(confs, threshold)) - 1
    ensures Confidence(tiers, confs, b) < threshold
  {
    BelowCrossing(tiers, confs, threshold, b as real);
  }

  lemma CeilWithSlack(x: real)
    ensures Ceil(x + SLACK) >= Ceil(x)
    ensures Ceil(x + SLACK) == Ceil(x) <==> x + SLACK <= Ceil(x) as real
  {
  }

  lemma CeilIsLeast(x: real, n: int)
    requires x <= n as real
    ensures Ceil(x) <= n
  {
  }

  ghost predicate MeetsNoLower(tiers: seq<int>, confs: seq<real>, threshold: real, target: int) {
    forall b: int :: b < target ==> !Meets(tiers, confs, threshold, b)
  }

  predicate Meets(tiers: seq<int>, confs: seq<real>, threshold: real, b: int) {
    Confidence(tiers, confs, b) >= threshold
  }

  /** The target is the least bitrate that meets the threshold exactly when the slack does not carry it one further. */
  lemma TargetIsLeastIff(tiers: seq<int>, confs: seq<real>, threshold: real)
    requires TableOk(tiers, confs) && Invertible(confs, threshold)
    ensures var a := FirstMeeting(confs, threshold);
      var crossing := Crossing(tiers, confs, threshold, a);
      MeetsNoLower(tiers, confs, threshold, Target(tiers, confs, threshold, a))
      <==> crossing + SLACK <= Ceil(crossing) as real
  {
    var a := FirstMeeting(confs, threshold);
    var crossing, target := Crossing(tiers, confs, threshold, a), Target(tiers, confs, threshold, a);
    var least := Ceil(crossing);
    CrossingInSegment(tiers, confs, threshold);
    CeilWithSlack(crossing);
    if crossing + SLACK <= least as real {
      forall b: int | b < target ensures !Meets(tiers, confs, threshold, b) {
        BelowCrossing(tiers, confs, threshold, b as real);
      }
    } else {
      CeilIsLeast(crossing, tiers[a]);
      AboveCrossing(tiers, confs, threshold, least as real);
      assert Meets(tiers, confs, threshold, least);
    }
  }

  /** In particular a crossing at a whole bitrate is overshot by one. */
  lemma WholeCrossingOvershoots(tiers: seq<int>, confs: seq<real>, threshold: real, a: nat, n: int)
    requires |tiers| == |confs| && a < |tiers| && Crossing(tiers, confs, threshold, a) == n as real
    ensures Target(tiers, confs, threshold, a) == n + 1
  {
  }

  // ---- the adjusted bitrate ----

  /** The cap holds for every row. */
  lemma CapHolds(tiers: seq<int>, confs: seq<real>, current: int, cc: int, threshold: real)
    requires TableOk(tiers, confs)
    ensures Adjusted(tiers, confs, current, cc, threshold) <= cc
  {
  }

  predicate Rising(confs: seq<real>) {
    forall i, j :: 0 <= i <= j < |confs| ==> confs[i] <= confs[j]
  }

  lemma LerpAbove(x: real, x0: real, x1: real, y0: real, y1: real, y: real)
    requires x0 <= x <= x1 && x1 - x0 >= FLAT && y0 >= y && y1 >= y
    ensures Lerp(x, x0, x1, y0, y1) >= y
  {
    var w := x1 - x0;
    var s := (x - x0) / w;
    DivTimes(x - x0, w);
    if s < 0.0 { Times(s, 0.0, w); }
    if s > 1.0 { Times(1.0, s, w); }
    NonNegative(s, y1 - y);
    NonNegative(1.0 - s, y0 - y);
    assert y0 + s * (y1 - y0) - y == (1.0 - s) * (y0 - y) + s * (y1 - y);
  }

  /** On a rising row every bitrate from the crossing on meets the threshold. */
  lemma AboveOnRisingRow(tiers: seq<int>, confs: seq<real>, threshold: real, x: real)
    requires TableOk(tiers, confs) && Rising(confs)
    requires var a := FirstMeeting(confs, threshold); a < |confs| && Crossing(tiers, confs, threshold, a) <= x
    ensures Curve(tiers, confs, x) >= threshold
  {
    var a := FirstMeeting(confs, threshold);
    if x <= tiers[a] as real {
      AboveCrossing(tiers, confs, threshold, x);
    } else if x < tiers[|tiers| - 1] as real {
      var k := UpperBound(tiers, x);
      assert k > a;
      LerpAbove(x, tiers[k - 1] as real, tiers[k] as real, confs[k - 1], confs[k], threshold);
    }
  }

  /** On a rising row the result meets the threshold, unless the cap or the whole table is below it. */
  lemma ResultMeetsThreshold(tiers: seq<int>, confs: seq<real>, current: int, cc: int, threshold: real)
    requires TableOk(tiers, confs) && Rising(confs)
    ensures var r := Adjusted(tiers, confs, current, cc, threshold);
      r == cc || Meets(tiers, confs, threshold, r) || confs[|confs| - 1] < threshold
  {
    var a := FirstMeeting(confs, threshold);
    if a < |confs| {
      var target := Target(tiers, confs, threshold, a);
      AboveOnRisingRow(tiers, confs, threshold, target as real);
    }
  }

  /** On a rising row the bitrate falls only to respect the cap. */
  lemma FallsOnlyToCap(tiers: seq<int>, confs: seq<real>, current: int, cc: int, threshold: real)
    requires TableOk(tiers, confs) && Rising(confs)
    ensures Adjusted(tiers, confs, current, cc, threshold) < current <==> current > cc
  {
    var a := FirstMeeting(confs, threshold);
    if a < |confs| && current as real >= Crossing(tiers, confs, threshold, a) {
      AboveOnRisingRow(tiers, confs, threshold, current as real);
    }
  }

  /** Whatever the threshold, no bitrate within the cap is lowered. */
  ghost predicate NeverDrops(tiers: seq<int>, confs: seq<real>)
    requires TableOk(tiers, confs)
  {
    forall current: int, cc: int, threshold: real ::
      current <= cc ==> Adjusted(tiers, confs, current, cc, threshold) >= current
  }

  /** Tiers lie at least 2 apart, so that rounding up past one does not reach the next. */
  predicate Spaced(tiers: seq<int>) {
    forall i, j :: 0 <= i < j < |tiers| ==> tiers[i] + 1 < tiers[j]
  }

  /** A row that falls from tier i to tier j lowers tier j when the threshold is the confidence of tier i. */
  lemma FallDrops(tiers: seq<int>, confs: seq<real>, i: nat, j: nat)
    requires TableOk(tiers, confs) && Spaced(tiers) && i < j < |tiers| && confs[i] > confs[j]
    ensures Adjusted(tiers, confs, tiers[j], tiers[j], confs[i]) < tiers[j]
  {
    var a := FirstMeeting(confs, confs[i]);
    assert a <= i;
    assert a < i ==> tiers[a] < tiers[i];
    AtTier(tiers, confs, j);
    CrossingUpToTier(tiers, confs, confs[i]);
  }

  lemma CrossingUpToTier(tiers: seq<int>, confs: seq<real>, threshold: real)
    requires TableOk(tiers, confs) && FirstMeeting(confs, threshold) < |confs|
    ensures var a := FirstMeeting(confs, threshold); Crossing(tiers, confs, threshold, a) <= tiers[a] as real
  {
    var a := FirstMeeting(confs, threshold);
    if a > 0 && confs[a] - confs[a - 1] >= FLAT {
      CrossingInSegment(tiers, confs, threshold);
    }
  }

  /** Exactly the rows that rise never lower a bitrate within the cap. */
  lemma NeverDropsIffRising(tiers: seq<int>, confs: seq<real>)
    requires TableOk(tiers, confs) && Spaced(tiers)
    ensures NeverDrops(tiers, confs) <==> Rising(confs)
  {
    if Rising(confs) {
      forall current: int, cc: int, threshold: real | current <= cc
        ensures Adjusted(tiers, confs, current, cc, threshold) >= current
      {
        FallsOnlyToCap(tiers, confs, current, cc, threshold);
      }
    } else {
      var i, j :| 0 <= i <= j < |confs| && confs[i] > confs[j];
      FallDrops(tiers, confs, i, j);
    }
  }

  // ---- repeated adjustment ----

  function Repeat(tiers: seq<int>, confs: seq<real>, current: int, cc: int, threshold: real, n: nat): int
    requires TableOk(tiers, confs)
    decreases n
  {
    if n == 0 then current
    else Repeat(tiers, confs, Adjusted(tiers, confs, current, cc, threshold), cc, threshold, n - 1)
  }

  predicate Fixed(tiers: seq<int>, confs: seq<real>, current: int, cc: int, threshold: real)
    requires TableOk(tiers, confs)
  {
    Adjusted(tiers, confs, current, cc, threshold) == current
  }

  lemma {:induction false} FixedStays(tiers: seq<int>, confs: seq<real>, current: int, cc: int, threshold: real, n: nat)
    requires TableOk(tiers, confs) && Fixed(tiers, confs, current, cc, threshold)
    ensures Repeat(tiers, confs, current, cc, threshold, n) == current
    decreases n
  {
    if n > 0 { FixedStays(tiers, confs, current, cc, threshold, n - 1); }
  }

  /** If some tier meets the threshold, one adjustment of a bitrate within the cap is final. */
  lemma OneStepIsFinal(tiers: seq<int>, confs: seq<real>, current: int, cc: int, threshold: real)
    requires TableOk(tiers, confs) && FirstMeeting(confs, threshold) < |confs| && current <= cc
    ensures Fixed(tiers, confs, Adjusted(tiers, confs, current, cc, threshold), cc, threshold)
  {
  }

  /** If no tier meets the threshold, no bitrate does. */
  lemma NothingMeets(tiers: seq<int>, confs: seq<real>, threshold: real, x: real)
    requires TableOk(tiers, confs) && FirstMeeting(confs, threshold) == |confs|
    ensures Curve(tiers, confs, x) < threshold
  {
    var k := UpperBound(tiers, x);
    if tiers[0] as real < x < tiers[|tiers| - 1] as real {
      LerpBelow(x, tiers[k - 1] as real, tiers[k] as real, confs[k - 1], confs[k], threshold);
    }
  }

  function TiersAbove(tiers: seq<int>, bitrate: int): nat {
    |tiers| - UpperBound(tiers, bitrate as real)
  }

  /** n is the least tier above a bitrate. */
  predicate IsNextTier(tiers: seq<int>, bitrate: int, n: int) {
    n in tiers && n > bitrate && forall t :: t in tiers && t > bitrate ==> n <= t
  }

  /**
   * If no tier meets the threshold, a bitrate within the cap goes up by exactly one tier: to the least tier above it
   * or to the cap, whichever is less, and stays where it is from the last tier on.
   */
  lemma ClimbsOneTier(tiers: seq<int>, confs: seq<real>, current: int, cc: int, threshold: real) returns (next: int)
    requires TableOk(tiers, confs) && (forall i :: 0 <= i < |confs| ==> confs[i] < threshold) && current <= cc
    ensures var r := Adjusted(tiers, confs, current, cc, threshold); var last := tiers[|tiers| - 1];
      && (current >= last ==> r == current)
      && (current < last ==> IsNextTier(tiers, current, next) && r == if cc < next then cc else next)
      && (current < last && current < cc ==> r > current && forall t :: t in tiers ==> !(current < t < r))
  {
    NothingMeets(tiers, confs, threshold, current as real);
    next := NextTierAbove(tiers, current);
    var k := UpperBound(tiers, current as real);
    forall t | t in tiers && t > current && current < tiers[|tiers| - 1] ensures next <= t {
      var j :| 0 <= j < |tiers| && tiers[j] == t;
      assert k <= j;
    }
  }

  function Larger(x: int, y: int): int { if x < y then y else x }

  /** Then the bitrate climbs tier by tier, and stays at the cap or the highest tier. */
  lemma {:induction false} ClimbEnds(tiers: seq<int>, confs: seq<real>, current: int, cc: int, threshold: real, n: nat)
    requires TableOk(tiers, confs) && FirstMeeting(confs, threshold) == |confs| && current <= cc
    requires n >= TiersAbove(tiers, current)
    ensures var end := Larger(current, Min(cc, tiers[|tiers| - 1]));
      Repeat(tiers, confs, current, cc, threshold, n) == end && Fixed(tiers, confs, end, cc, threshold)
    decreases n
  {
    NothingMeets(tiers, confs, threshold, current as real);
    NothingMeets(tiers, confs, threshold, cc as real);
    if current >= tiers[|tiers| - 1] || current == cc {
      FixedStays(tiers, confs, current, cc, threshold, n);
    } else {
      var next := NextTierAbove(tiers, current);
      assert Adjusted(tiers, confs, current, cc, threshold) == Min(cc, next);
      if cc <= next {
        assert Fixed(tiers, confs, cc, cc, threshold);
        FixedStays(tiers, confs, cc, cc, threshold, n - 1);
      } else {
        Climbs(tiers, current);
        ClimbEnds(tiers, confs, next, cc, threshold, n - 1);
      }
    }
  }

  lemma Climbs(tiers: seq<int>, current: int)
    requires (forall i, j :: 0 <= i < j < |tiers| ==> tiers[i] < tiers[j]) && tiers != []
    requires current < tiers[|tiers| - 1]
    ensures TiersAbove(tiers, NextTierAbove(tiers, current)) < TiersAbove(tiers, current)
  {
  }

  function Longest(tiers: seq<int>): nat { if |tiers| < 2 then 2 else |tiers| }

  /**
   * Where a bitrate comes to rest, first cut to the cap: where it is if it meets the threshold, at the cap or the last
   * tier if no tier does, and else at the cap or the target.
   */
  function Rest(tiers: seq<int>, confs: seq<real>, current: int, cc: int, threshold: real): int
    requires TableOk(tiers, confs)
  {
    var start := Min(current, cc);
    var a := FirstMeeting(confs, threshold);
    if Meets(tiers, confs, threshold, start) then start
    else if a == |confs| then Larger(start, Min(cc, tiers[|tiers| - 1]))
    else Min(cc, Target(tiers, confs, threshold, a))
  }

  /** With unchanging inputs every bitrate comes to rest within as many adjustments as there are tiers, on any row. */
  lemma AdjustmentSettles(tiers: seq<int>, confs: seq<real>, current: int, cc: int, threshold: real, n: nat)
    requires TableOk(tiers, confs) && n >= Longest(tiers)
    ensures var end := Rest(tiers, confs, current, cc, threshold);
      Repeat(tiers, confs, current, cc, threshold, n) == end && Fixed(tiers, confs, end, cc, threshold)
  {
    var first := Adjusted(tiers, confs, current, cc, threshold);
    if FirstMeeting(confs, threshold) < |confs| {
      var second := Adjusted(tiers, confs, first, cc, threshold);
      OneStepIsFinal(tiers, confs, first, cc, threshold);
      FixedStays(tiers, confs, second, cc, threshold, n - 2);
    } else if current > cc {
      ClimbFromCap(tiers, confs, cc, threshold);
      FixedStays(tiers, confs, cc, cc, threshold, n - 1);
      NothingMeets(tiers, confs, threshold, cc as real);
    } else {
      NothingMeets(tiers, confs, threshold, current as real);
      ClimbEnds(tiers, confs, current, cc, threshold, n);
    }
  }

  lemma ClimbFromCap(tiers: seq<int>, confs: seq<real>, cc: int, threshold: real)
    requires TableOk(tiers, confs) && FirstMeeting(confs, threshold) == |confs|
    ensures Fixed(tiers, confs, cc, cc, threshold)
  {
  }
}

/** The controller object with its lazily built cache of rows. */
module ConfidenceControllers {
  import opened ConfidenceCurves
  import opened WideArithmetic

  const TIERS: seq<int> := [200, 400, 610, 910, 1710, 3150]

  datatype Row = Row(index: int, c200: real, c400: real, c610: real, c910: real, c1710: real, c3150: real)

  function AsVector(r: Row): (v: seq<real>)
    ensures TableOk(TIERS, v)
  {
    [r.c200, r.c400, r.c610, r.c910, r.c1710, r.c3150]
  }

  /** The row used for a frame: frames before the first and after the last row use those. */
  function RowIndex(frame: int, perRow: int, rows: nat): (k: nat)
    requires perRow != 0 && rows > 0
    ensures k < rows
  {
    var k := Truncated(frame, perRow);
    if k < 0 then 0 else if k >= rows then rows - 1 else k
  }

  class ConfidenceController {
    const framesPerRow: int
    var rows: seq<Row>
    var cacheBuilt: bool
    var cache: seq<seq<real>>

    ghost predicate Valid()
      reads this
    {
      framesPerRow != 0
      && (cacheBuilt ==> |cache| == |rows| && forall i :: 0 <= i < |rows| ==> cache[i] == AsVector(rows[i]))
    }

    constructor (framesPerRow: int)
      requires framesPerRow != 0
      ensures Valid() && rows == [] && this.framesPerRow == framesPerRow
    {
      this.framesPerRow := framesPerRow;
      rows, cacheBuilt, cache := [], false, [];
    }

    /** LoadFromCsv with the parsed lines: the cache of the old rows is dropped. */
    method Load(parsed: seq<Row>) returns (ok: bool)
      requires Valid()
      modifies this
      ensures Valid() && rows == parsed && (ok <==> parsed != [])
    {
      rows, cacheBuilt, cache := [], false, [];
      for i := 0 to |parsed|
        invariant rows == parsed[..i] && !cacheBuilt
      {
        rows := rows + [parsed[i]];
      }
      ok := |rows| > 0;
    }

    method EnsureCacheBuilt()
      requires Valid()
      modifies this`cacheBuilt, this`cache
      ensures Valid() && cacheBuilt
    {
      if cacheBuilt {
        return;
      }
      cache := [];
      for i := 0 to |rows|
        invariant |cache| == i && forall j :: 0 <= j < i ==> cache[j] == AsVector(rows[j])
        modifies this`cache
      {
        cache := cache + [AsVector(rows[i])];
      }
      cacheBuilt := true;
    }

    method ComputeRowIndex(frame: int) returns (k: nat)
      requires Valid() && rows != []
      ensures k == RowIndex(frame, framesPerRow, |rows|)
    {
      var i := Truncated(frame, framesPerRow);
      if i < 0 {
        i := 0;
      }
      if i >= |rows| {
        i := |rows| - 1;
      }
      k := i;
    }

    method GetRowConfsByFrame(frame: int) returns (confs: seq<real>)
      requires Valid() && rows != []
      modifies this`cacheBuilt, this`cache
      ensures Valid() && confs == AsVector(rows[RowIndex(frame, framesPerRow, |rows|)])
    {
      var k := ComputeRowIndex(frame);
      EnsureCacheBuilt();
      confs := cache[k];
    }

    method GetConfidence(frame: int, bitrate: int) returns (c: real)
      requires Valid() && rows != []
      modifies this`cacheBuilt, this`cache
      ensures Valid()
      ensures c == Confidence(TIERS, AsVector(rows[RowIndex(frame, framesPerRow, |rows|)]), bitrate)
    {
      var confs := GetRowConfsByFrame(frame);
      c := Confidence(TIERS, confs, bitrate);
    }

    /** The scan for the first tier that meets the threshold. */
    method FindTier(confs: seq<real>, threshold: real) returns (a: int)
      ensures a == if FirstMeeting(confs, threshold) == |confs| then -1 else FirstMeeting(confs, threshold)
    {
      a := -1;
      var i := 0;
      while i < |confs|
        invariant 0 <= i <= |confs| && a == -1
        invariant FirstMeeting(confs, threshold) >= i
      {
        if confs[i] >= threshold {
          return i;
        }
        i := i + 1;
      }
    }

    method AdjustBitrate(frame: int, current: int, cc: int, threshold: real) returns (r: int)
      requires Valid()
      modifies this`cacheBuilt, this`cache
      ensures Valid()
      ensures r == if rows == [] then Min(current, cc)
                   else Adjusted(TIERS, AsVector(rows[RowIndex(frame, framesPerRow, |rows|)]), current, cc, threshold)
    {
      if |rows| == 0 {
        return Min(current, cc);
      }
      if current > cc {
        return cc;
      }
      var confs := GetRowConfsByFrame(frame);
      if Confidence(TIERS, confs, current) >= threshold {
        return current;
      }
      var a := FindTier(confs, threshold);
      if a == -1 {
        var target := if current < TIERS[|TIERS| - 1] then NextTierAbove(TIERS, current) else current;
        return Min(cc, target);
      }
      var target := InverseAt(confs, threshold, a);
      return Min(cc, Ceil(target + SLACK));
    }

    /** The inverse interpolation between tiers a - 1 and a. */
    method InverseAt(confs: seq<real>, threshold: real, a: nat) returns (target: real)
      requires |confs| == |TIERS| && a < |TIERS|
      ensures target == Crossing(TIERS, confs, threshold, a)
    {
      if a == 0 {
        return TIERS[0] as real;
      }
      var lo, hi := TIERS[a - 1] as real, TIERS[a] as real;
      var low, high := confs[a - 1], confs[a];
      if AbsR(high - low) < FLAT {
        return hi;
      }
      var t := (threshold - low) / (high - low);
      if t > 1.0 {
        t := 1.0;
      }
      if t < 0.0 {
        t := 0.0;
      }
      target := lo + t * (hi - lo);
    }
  }
}
