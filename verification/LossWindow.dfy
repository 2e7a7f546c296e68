// The sliding loss window of the receiver (ReCapABR/estimator/cc_loss_stat.c).

/** The window as a value: the recent ids in order, each with its arrival time. */
module LossWindows {
  import opened Wrappers
  import opened SortedEntries
  import opened Unwrapping
  import opened WideArithmetic

  const WINDOW_MS: int := 4000
  const WINDOW_IDS: nat := 200
  const REPORT_IDS: nat := 100
  const HALF32: int := 0x8000_0000

  /** id64_compare. */
  function Order(a: int, b: int): int {
    if a > b then 1 else if a < b then -1 else 0
  }

  datatype Window = Window(maxId: int, last: int, list: seq<Entry<int, int>>)

  datatype Report = Report(fraction: int, number: int)

  function Start(): Window { Window(-1, 0, []) }

  predicate Stale(list: seq<Entry<int, int>>, now: int) {
    |list| > WINDOW_IDS || (list != [] && list[0].val + WINDOW_MS < now)
  }

  /** loss_evict_oldest: entries go from the front while there are too many or the front is too old. */
  function Evicted(list: seq<Entry<int, int>>, now: int): (r: seq<Entry<int, int>>)
    ensures |r| <= WINDOW_IDS && !Stale(r, now)
  {
    if Stale(list, now) then Evicted(list[1..], now) else list
  }

  /** loss_statistics_incoming. */
  function Incoming(w: Window, val: nat, now: int): Window
    requires w.last >= 0 && val < M16
  {
    UnwrapIsCongruent(M16, w.last, val);
    var id := Unwrap(M16, w.last, val);
    Window(if w.maxId < id then id else w.maxId, id, Evicted(Inserted(Order, w.list, id, now), now))
  }

  /** The conversion to a signed 32-bit int. */
  function Int32(n: int): (i: int)
    ensures -HALF32 <= i < HALF32
  {
    var u := n % W;
    if u < HALF32 then u else u - W
  }

  /** The fraction in units of 1/255, computed in 32-bit arithmetic and cut to a byte. */
  function Fraction(distance: int, count: int): (f: int)
    requires distance > 0
    ensures 0 <= f < 256
  {
    if distance <= count then 0 else Truncated(Int32((distance - count) * 255), distance) % 256
  }

  function ReportOf(distance: int, count: nat): Option<Report> {
    if distance <= 0 then None else Some(Report(Fraction(distance, count), distance))
  }

  function ReportOn(maxId: int, list: seq<Entry<int, int>>): Option<Report> {
    if maxId == -1 || |list| < REPORT_IDS then None else ReportOf(Int32(maxId - list[0].key + 1), |list|)
  }

  /** loss_statistics_calculate: the window afterwards, and the report unless there is too little data. */
  function Calculated(w: Window, now: int): (Window, Option<Report>) {
    var list := Evicted(w.list, now);
    (w.(list := list), ReportOn(w.maxId, list))
  }

  /** Asking again at the same time changes nothing and gives the same report. */
  lemma CalculatedAgain(w: Window, now: int)
    ensures var (v, report) := Calculated(w, now); Calculated(v, now) == (v, report)
  {
  }

  // ---- what every arrival keeps ----

  lemma OrderIsTotal()
    ensures TotalOrder(Order)
  {
  }

  predicate KeyAt(list: seq<Entry<int, int>>, i: int, low: int, high: int) {
    0 <= i < |list| ==> low <= list[i].key <= high
  }

  ghost predicate AllWithin(list: seq<Entry<int, int>>, low: int, high: int) {
    forall i :: KeyAt(list, i, low, high)
  }

  /** Ids are distinct and in order, lie between 0 and the highest id, and there are at most 200. */
  ghost predicate Ok(w: Window) {
    && w.last >= 0 && w.maxId >= -1
    && Sorted(Order, w.list) && |w.list| <= WINDOW_IDS
    && AllWithin(w.list, 0, w.maxId)
  }

  lemma {:induction false} EvictedIsTail(list: seq<Entry<int, int>>, now: int)
    ensures var r := Evicted(list, now); |r| <= |list| && r == list[|list| - |r|..]
  {
    if Stale(list, now) { EvictedIsTail(list[1..], now); }
  }

  lemma EvictedOk(list: seq<Entry<int, int>>, now: int, high: int)
    requires Sorted(Order, list) && AllWithin(list, 0, high)
    ensures Sorted(Order, Evicted(list, now)) && AllWithin(Evicted(list, now), 0, high)
  {
    var r := Evicted(list, now);
    EvictedIsTail(list, now);
    var k := |list| - |r|;
    forall i, j ensures Below(Order, r, i, j) { assert Below(Order, list, i + k, j + k); }
    forall i ensures KeyAt(r, i, 0, high) { assert KeyAt(list, i + k, 0, high); }
  }

  lemma InsertedKeys(list: seq<Entry<int, int>>, id: int, now: int, high: int, top: int)
    requires AllWithin(list, 0, high) && 0 <= id <= top && high <= top
    ensures AllWithin(Inserted(Order, list, id, now), 0, top)
  {
    var r := Inserted(Order, list, id, now);
    var m := LowerBound(Order, list, id);
    forall i ensures KeyAt(r, i, 0, top) {
      assert KeyAt(list, i, 0, high) && KeyAt(list, i - 1, 0, high);
    }
  }

  /** Every arrival keeps the window within its bounds. */
  lemma IncomingKeeps(w: Window, val: nat, now: int)
    requires Ok(w) && val < M16
    ensures Ok(Incoming(w, val, now))
  {
    UnwrapIsCongruent(M16, w.last, val);
    var id := Unwrap(M16, w.last, val);
    OrderIsTotal();
    InsertedSorted(Order, w.list, id, now);
    var top := if w.maxId < id then id else w.maxId;
    InsertedKeys(w.list, id, now, w.maxId, top);
    EvictedOk(Inserted(Order, w.list, id, now), now, top);
  }

  lemma CalculatedKeeps(w: Window, now: int)
    requires Ok(w)
    ensures Ok(Calculated(w, now).0)
  {
    EvictedOk(w.list, now, w.maxId);
  }

  /** Eviction drops from the front just what makes more than 200 entries or is more than four seconds old. */
  lemma {:induction false} EvictedIs(list: seq<Entry<int, int>>, now: int) returns (k: nat)
    ensures k <= |list| && Evicted(list, now) == list[k..]
    ensures forall j :: 0 <= j < k ==> |list| - j > 200 || list[j].val + 4000 < now
    ensures k < |list| ==> |list| - k <= 200 && list[k].val + 4000 >= now
  {
    k := 0;
    if Stale(list, now) {
      k := EvictedIs(list[1..], now);
      forall j | 0 <= j < k + 1 ensures |list| - j > 200 || list[j].val + 4000 < now {
        if j > 0 { assert list[1..][j - 1] == list[j]; }
      }
      k := k + 1;
    }
  }

  // ---- what a report says ----

  predicate Present(list: seq<Entry<int, int>>, id: int) {
    exists i :: 0 <= i < |list| && list[i].key == id
  }

  /** The number of ids from low to high that did not arrive. */
  function Missing(list: seq<Entry<int, int>>, low: int, high: int): nat
    decreases high - low + 1
  {
    if low > high then 0 else (if Present(list, low) then 0 else 1) + Missing(list, low + 1, high)
  }

  lemma {:induction false} MissingTail(list: seq<Entry<int, int>>, low: int, high: int)
    requires list != [] && list[0].key < low
    ensures Missing(list, low, high) == Missing(list[1..], low, high)
    decreases high - low + 1
  {
    if low <= high {
      MissingTail(list, low + 1, high);
      if Present(list, low) {
        var i :| 0 <= i < |list| && list[i].key == low;
        assert list[1..][i - 1].key == low;
      }
    }
  }

  lemma TailSorted(list: seq<Entry<int, int>>)
    requires list != [] && Sorted(Order, list)
    ensures Sorted(Order, list[1..])
    ensures forall i :: 0 < i < |list| ==> list[0].key < list[i].key
  {
    forall i, j ensures Below(Order, list[1..], i, j) { assert Below(Order, list, i + 1, j + 1); }
    forall i | 0 < i < |list| ensures list[0].key < list[i].key { assert Below(Order, list, 0, i); }
  }

  lemma TailWithin(list: seq<Entry<int, int>>, low: int, high: int)
    requires list != [] && AllWithin(list, low, high) && Sorted(Order, list) && list[0].key == low
    ensures AllWithin(list[1..], low + 1, high)
  {
    TailSorted(list);
    var next, rest := low + 1, list[1..];
    forall i ensures KeyAt(rest, i, next, high) { assert KeyAt(list, i + 1, low, high); }
  }

  lemma AboveWithin(list: seq<Entry<int, int>>, low: int, high: int)
    requires AllWithin(list, low, high) && Sorted(Order, list) && (list != [] ==> list[0].key > low)
    ensures AllWithin(list, low + 1, high)
  {
    if list != [] { TailSorted(list); }
    var next := low + 1;
    forall i ensures KeyAt(list, i, next, high) { assert KeyAt(list, i, low, high); }
  }

  lemma {:induction false} MissingIs(list: seq<Entry<int, int>>, low: int, high: int)
    requires Sorted(Order, list) && low <= high + 1 && AllWithin(list, low, high)
    ensures Missing(list, low, high) == high - low + 1 - |list|
    decreases high - low + 1
  {
    if list != [] {
      assert KeyAt(list, 0, low, high);
      TailSorted(list);
    }
    if low <= high {
      if list != [] && list[0].key == low {
        assert Present(list, low);
        TailWithin(list, low, high);
        MissingIs(list[1..], low + 1, high);
        MissingTail(list, low + 1, high);
      } else {
        AboveWithin(list, low, high);
        MissingIs(list, low + 1, high);
      }
    }
  }

  /** q is n / d rounded down. */
  predicate IsFloor(q: int, n: int, d: int) { q * d <= n < (q + 1) * d }

  /** What a report should say of the ids between the oldest one kept and the highest one. */
  predicate Exact(r: Option<Report>, distance: int, missing: nat) {
    r.Some? && r.value.number == distance && IsFloor(r.value.fraction, 255 * missing, distance)
  }

  /** 255 times the missing ids, in 32-bit arithmetic. */
  function Product(distance: int, count: int): int {
    Int32((distance - count) * 255)
  }

  /**
   * The spans that are reported right: those that fit 32 bits with their product, and those whose product wraps to
   * just where the quotient, cut to a byte, comes out at 254 again.
   */
  predicate SpanFits(distance: int, count: int) {
    && distance < HALF32
    && ((distance - count) * 255 < HALF32 || -3 * distance < Product(distance, count) <= -2 * distance)
  }

  /**
   * A report is given exactly when 100 ids are left, unless the span wraps to 0 or below. It counts the missing ids
   * of the span it covers exactly when the span fits.
   */
  lemma ReportIsExactIff(w: Window, now: int, list: seq<Entry<int, int>>, oldest: int)
    requires Ok(w) && list == Evicted(w.list, now) && (list != [] ==> oldest == list[0].key)
    ensures var distance := w.maxId - oldest + 1; var report := Calculated(w, now).1;
      && (report.Some? <==> |list| >= REPORT_IDS && Int32(distance) > 0)
      && (|list| >= REPORT_IDS ==>
            (Exact(report, distance, Missing(list, oldest, w.maxId)) <==> SpanFits(distance, |list|)))
  {
    EvictedOk(w.list, now, w.maxId);
    if |list| >= REPORT_IDS {
      MissingInSpan(list, w.maxId);
      SpanReport(w.maxId - oldest + 1, |list|, Missing(list, oldest, w.maxId));
    }
  }

  lemma SpanReport(distance: int, count: nat, missing: nat)
    requires 0 < count <= WINDOW_IDS && missing == distance - count
    ensures Exact(ReportOf(Int32(distance), count), distance, missing) <==> SpanFits(distance, count)
  {
    if distance < HALF32 {
      Quotient(distance, W, 0, distance);
      if missing * 255 < HALF32 {
        NarrowFraction(distance, count);
      } else {
        WideFraction(distance, count);
      }
    }
  }

  lemma MissingInSpan(list: seq<Entry<int, int>>, maxId: int)
    requires list != [] && Sorted(Order, list) && AllWithin(list, 0, maxId)
    ensures 0 <= list[0].key <= maxId
    ensures Missing(list, list[0].key, maxId) == maxId - list[0].key + 1 - |list|
  {
    var oldest := list[0].key;
    assert KeyAt(list, 0, 0, maxId);
    TailSorted(list);
    forall i ensures KeyAt(list, i, oldest, maxId) { assert KeyAt(list, i, 0, maxId); }
    MissingIs(list, oldest, maxId);
  }

  /** While the product fits, the fraction is exact. */
  lemma NarrowFraction(distance: int, count: nat)
    requires 0 < distance && count > 0 && count <= distance && (distance - count) * 255 < HALF32
    ensures IsFloor(Fraction(distance, count), 255 * (distance - count), distance)
  {
    var n := (distance - count) * 255;
    Quotient(n, W, 0, n);
    FloorOf(n, distance, 255);
    Quotient(n / distance, 256, 0, n / distance);
  }

  lemma FloorOf(n: nat, d: int, k: nat)
    requires d > 0 && n < k * d
    ensures 0 <= n / d < k && IsFloor(n / d, n, d)
  {
  }

  /** Once it wraps, the fraction should be 254, and is only if the truncated quotient is -2. */
  lemma WideFraction(distance: int, count: nat)
    requires 0 < count <= WINDOW_IDS && distance < HALF32 <= (distance - count) * 255
    ensures IsFloor(Fraction(distance, count), 255 * (distance - count), distance)
            <==> -3 * distance < Product(distance, count) <= -2 * distance
  {
    var n, p := (distance - count) * 255, Product(distance, count);
    var t := Truncated(p, distance);
    FloorIs(Fraction(distance, count), 254, n, distance);
    WrapDrops(n);
    TruncatedWithin(p, distance, t);
    assert t % 256 == 254 <==> t == 254 || t == -2;
  }

  /** A number too large for 32 bits loses at least 2 to the 32. */
  lemma WrapDrops(n: int)
    requires n >= HALF32
    ensures Int32(n) <= n - W
  {
    assert n == n / W * W + n % W;
  }

  lemma FloorIs(f: int, q: int, n: int, d: int)
    requires IsFloor(q, n, d) && d > 0
    ensures IsFloor(f, n, d) <==> f == q
  {
    if f < q { AtLeast(q - f, d); }
    if f > q { AtLeast(f - q, d); }
  }

  /** The quotient of a 32-bit number by a wide span is small, and -2 or 254 just where expected. */
  lemma TruncatedWithin(p: int, d: int, t: int)
    requires -HALF32 <= p < HALF32 <= 255 * d && t == Truncated(p, d)
    ensures -255 <= t <= 255
    ensures t == -2 <==> -3 * d < p <= -2 * d
    ensures t == 254 ==> 254 * d <= p
  {
    var n := Abs(p);
    var q := n / d;
    FloorOf(n, d, 256);
    if 2 * d <= n < 3 * d { FloorIs(q, 2, n, d); }
  }

  // ---- runs ----

  datatype Op = Arrive(low: nat, now: int) | Ask(now: int)

  predicate Enabled(op: Op) { op.Arrive? ==> op.low < M16 }

  function Step(w: Window, op: Op): Window
    requires w.last >= 0 && Enabled(op)
  {
    match op
    case Arrive(val, now) => Incoming(w, val, now)
    case Ask(now) => Calculated(w, now).0
  }

  ghost predicate Reaches(w: Window, ops: seq<Op>, v: Window)
    decreases |ops|
  {
    if ops == [] then w == v
    else w.last >= 0 && Enabled(ops[0]) && Reaches(Step(w, ops[0]), ops[1..], v)
  }

  /** Over every run: at most 200 distinct ids, in order, none above the highest. */
  lemma {:induction false} RunKeeps(w: Window, ops: seq<Op>, v: Window)
    requires Ok(w) && Reaches(w, ops, v)
    ensures Ok(v)
    decreases |ops|
  {
    if ops != [] {
      match ops[0]
      case Arrive(val, now) =>
        IncomingKeeps(w, val, now);
        RunKeeps(Step(w, ops[0]), ops[1..], v);
      case Ask(now) =>
        CalculatedKeeps(w, now);
        RunKeeps(Step(w, ops[0]), ops[1..], v);
    }
  }

  // ---- wide spans occur ----

  /** All entries arrived at one time. */
  predicate At(list: seq<Entry<int, int>>, time: int) {
    forall i :: 0 <= i < |list| ==> list[i].val == time
  }

  function Larger(a: int, b: int): int { if a < b then b else a }

  /** An arrival whose number is near the last one. */
  lemma Recovered(w: Window, x: nat, now: int)
    requires w.last >= 0 && Near(M16, w.last, x)
    ensures var v := Incoming(w, x % M16, now);
      v == Window(Larger(w.maxId, x), x, Evicted(Inserted(Order, w.list, x, now), now))
  {
    RecoveredIffNear(M16, w.last, x);
  }

  lemma StaysAt(list: seq<Entry<int, int>>, x: int, now: int)
    requires At(list, now)
    ensures At(Evicted(Inserted(Order, list, x, now), now), now)
  {
    EvictedIsTail(Inserted(Order, list, x, now), now);
  }

  lemma ReachesFirst(w: Window, op: Op, ops: seq<Op>, v: Window)
    requires w.last >= 0 && Enabled(op) && Reaches(Step(w, op), ops, v)
    ensures Reaches(w, [op] + ops, v)
  {
    assert ([op] + ops)[1..] == ops;
  }

  lemma {:induction false} ReachesJoin(w: Window, p: seq<Op>, u: Window, q: seq<Op>, v: Window)
    requires Reaches(w, p, u) && Reaches(u, q, v)
    ensures Reaches(w, p + q, v)
    decreases |p|
  {
    if p == [] {
      assert p + q == q;
    } else {
      ReachesJoin(Step(w, p[0]), p[1..], u, q, v);
      assert (p + q)[1..] == p[1..] + q;
    }
  }

  /** The largest step that is recovered whatever the low bits. */
  const STRIDE: nat := 0x7FFF

  lemma {:induction false} Climb(w: Window, n: nat) returns (ops: seq<Op>, v: Window)
    requires w.last >= 0 && w.maxId <= w.last && At(w.list, 0)
    ensures Reaches(w, ops, v) && At(v.list, 0) && v.last == w.last + STRIDE * n
    ensures v.maxId == if n == 0 then w.maxId else v.last
    decreases n
  {
    if n == 0 {
      ops, v := [], w;
    } else {
      var x := w.last + STRIDE;
      Recovered(w, x, 0);
      StaysAt(w.list, x, 0);
      var op := Arrive(x % M16, 0);
      ops, v := Climb(Step(w, op), n - 1);
      ReachesFirst(w, op, ops, v);
      ops := [op] + ops;
    }
  }

  lemma {:induction false} Descend(w: Window, n: nat) returns (ops: seq<Op>, v: Window)
    requires STRIDE * n <= w.last <= w.maxId && At(w.list, 0)
    ensures Reaches(w, ops, v) && At(v.list, 0) && v.last == w.last - STRIDE * n && v.maxId == w.maxId
    decreases n
  {
    if n == 0 {
      ops, v := [], w;
    } else {
      var x := w.last - STRIDE;
      Recovered(w, x, 0);
      StaysAt(w.list, x, 0);
      var op := Arrive(x % M16, 0);
      ops, v := Descend(Step(w, op), n - 1);
      ReachesFirst(w, op, ops, v);
      ops := [op] + ops;
    }
  }

  /** n entries with successive ids. */
  function Streak(first: int, n: nat, now: int): (s: seq<Entry<int, int>>)
    ensures |s| == n && forall i :: 0 <= i < n ==> s[i] == Entry(first + i, now)
  {
    seq(n, i requires 0 <= i < n => Entry(first + i, now))
  }

  lemma StreakGrows(first: int, n: nat, now: int)
    requires n < WINDOW_IDS
    ensures Evicted(Inserted(Order, Streak(first, n, now), first + n, now), now) == Streak(first, n + 1, now)
  {
    var s := Streak(first, n, now);
    assert forall i :: 0 <= i < n ==> s[i].key < first + n;
    assert s[..n] + [Entry(first + n, now)] + s[n..] == Streak(first, n + 1, now);
  }

  lemma {:induction false} Count(w: Window, first: int, k: nat, n: nat, now: int) returns (ops: seq<Op>, v: Window)
    requires w.last >= 0 && w.list == Streak(first, k, now) && w.last == first + k - 1
    requires k + n <= WINDOW_IDS && first + k + n <= w.maxId
    ensures Reaches(w, ops, v) && v.list == Streak(first, k + n, now) && v.maxId == w.maxId
    decreases n
  {
    if n == 0 {
      ops, v := [], w;
    } else {
      var x := w.last + 1;
      Recovered(w, x, now);
      StreakGrows(first, k, now);
      var op := Arrive(x % M16, now);
      ops, v := Count(Step(w, op), first, k + 1, n - 1, now);
      ReachesFirst(w, op, ops, v);
      ops := [op] + ops;
    }
  }

  lemma {:induction false} StaleGoes(list: seq<Entry<int, int>>, now: int)
    requires At(list, 0) && now > WINDOW_MS
    ensures Evicted(list, now) == []
  {
    if list != [] { StaleGoes(list[1..], now); }
  }

  /** Asking late empties the window, and then the next 100 ids arrive. */
  lemma Refill(w: Window) returns (ops: seq<Op>, v: Window)
    requires w.last == 0 && w.maxId > 100 && At(w.list, 0)
    ensures Reaches(w, ops, v) && v.list == Streak(1, 100, WINDOW_MS + 1) && v.maxId == w.maxId
  {
    var ask := Ask(WINDOW_MS + 1);
    StaleGoes(w.list, WINDOW_MS + 1);
    assert Streak(1, 0, WINDOW_MS + 1) == [];
    ops, v := Count(Step(w, ask), 1, 0, 100, WINDOW_MS + 1);
    ReachesFirst(w, ask, ops, v);
    ops := [ask] + ops;
  }

  /** Spans without bound occur: climb n strides, go back down, wait until the window is empty, and count 100 ids. */
  lemma WideSpansOccur(n: nat) returns (ops: seq<Op>, v: Window)
    requires n > 0
    ensures Reaches(Start(), ops, v) && v.list == Streak(1, 100, WINDOW_MS + 1) && v.maxId == STRIDE * n
  {
    var up, top := Climb(Start(), n);
    var down, low := Descend(top, n);
    var more;
    more, v := Refill(low);
    ReachesJoin(top, down, low, more, v);
    ReachesJoin(Start(), up, top, down + more, v);
    ops := up + (down + more);
  }

  /** 258 strides are too wide: the product wraps to a quotient that leaves 3 of 255, not 254. */
  lemma StridesDoNotFit(distance: int)
    requires distance == STRIDE * 258
    ensures !SpanFits(distance, 100) && Fraction(distance, 100) == 3
  {
    Quotient((distance - 100) * 255, W, 0, (distance - 100) * 255);
    Quotient(2139251866, distance, 253, 2139251866 - 253 * distance);
  }

  /** So a run exists after which 100 ids are left and the report is wrong. */
  lemma WideSpanMisreported() returns (ops: seq<Op>, v: Window)
    ensures Reaches(Start(), ops, v) && v.list == Streak(1, 100, WINDOW_MS + 1) == Evicted(v.list, WINDOW_MS + 1)
    ensures !Exact(Calculated(v, WINDOW_MS + 1).1, v.maxId, Missing(v.list, 1, v.maxId))
  {
    ops, v := WideSpansOccur(258);
    RunKeeps(Start(), ops, v);
    assert v.list[0] == Entry(1, WINDOW_MS + 1);
    StridesDoNotFit(v.maxId);
    ReportIsExactIff(v, WINDOW_MS + 1, v.list, 1);
  }
}

/** The statistics object of a receiver. */
module LossStatistics {
  import opened Wrappers
  import opened SortedEntries
  import opened Unwrappers
  import opened LossWindows

  class LossStatistic {
    var maxId: int
    var statTs: int
    var list: seq<Entry<int, int>>
    const wrapper: Unwrapper

    ghost predicate Valid()
      reads this, wrapper
    {
      wrapper.Valid() && wrapper.size == 2 && Ok(Abs())
    }

    ghost function Abs(): Window
      reads this, wrapper
    {
      Window(maxId, wrapper.lastValue, list)
    }

    constructor ()
      ensures Valid() && Abs() == Start() && statTs == -1 && fresh(wrapper)
    {
      wrapper := new Unwrapper.Init16();
      maxId, statTs, list := -1, -1, [];
    }

    method EvictOldest(now: int)
      requires Sorted(Order, list)
      modifies this`list
      ensures list == Evicted(old(list), now) && Sorted(Order, list)
    {
      if |list| > 0 {
        while |list| > WINDOW_IDS || (list != [] && list[0].val + WINDOW_MS < now)
          invariant Sorted(Order, list) && Evicted(list, now) == Evicted(old(list), now)
          decreases |list|
          modifies this`list
        {
          RemovedFirst(list);
          list := Removed(Order, list, list[0].key);
        }
      }
    }

    method Incoming(val: uint16, now: int)
      requires Valid()
      modifies this`maxId, this`list, wrapper`lastValue
      ensures Valid() && Abs() == LossWindows.Incoming(old(Abs()), val, now)
    {
      IncomingKeeps(Abs(), val, now);
      var id := wrapper.Wrap16(val);
      Note(id, now);
    }

    /** Records one id. */
    method Note(id: int, now: int)
      requires Sorted(Order, list)
      modifies this`maxId, this`list
      ensures maxId == if old(maxId) < id then id else old(maxId)
      ensures list == Evicted(Inserted(Order, old(list), id, now), now)
    {
      if maxId < id {
        maxId := id;
      }
      OrderIsTotal();
      InsertedSorted(Order, list, id, now);
      list := Inserted(Order, list, id, now);
      EvictOldest(now);
    }

    method Calculate(now: int) returns (report: Option<Report>)
      requires Valid()
      modifies this`list, this`statTs
      ensures Valid() && (Abs(), report) == Calculated(old(Abs()), now)
      ensures statTs == if report.Some? then now else old(statTs)
    {
      CalculatedKeeps(Abs(), now);
      EvictOldest(now);
      report := MakeReport();
      if report.Some? {
        statTs := now;
      }
    }

    method MakeReport() returns (report: Option<Report>)
      ensures report == ReportOn(maxId, list)
    {
      if maxId == -1 || |list| < REPORT_IDS {
        return None;
      }
      var distance := Int32(maxId - list[0].key + 1);
      if distance <= 0 {
        return None;
      }
      report := Some(Report(Fraction(distance, |list|), distance));
    }
  }

  lemma RemovedFirst(list: seq<Entry<int, int>>)
    requires list != [] && Sorted(Order, list)
    ensures Removed(Order, list, list[0].key) == list[1..] && Sorted(Order, list[1..])
  {
    TailSorted(list);
    assert LowerBound(Order, list, list[0].key) == 0;
  }
}
