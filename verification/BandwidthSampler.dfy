// The accounting of the bandwidth sampler (ReCapABR/bbr/bbr_bandwidth_sample.c).

/** The reference: every packet sent, with its size and what became of it. */
module PacketLedgers {

  const MAX_TRACKED: int := 10000

  datatype Fate = Live | Acked | Dropped | Untracked

  datatype Packet = Packet(number: int, size: nat, fate: Fate)

  /** Packets are numbered in increasing order from 0. */
  predicate Ordered(h: seq<Packet>) {
    && (forall i :: 0 <= i < |h| ==> h[i].number >= 0)
    && (forall i, j :: 0 <= i < j < |h| ==> h[i].number < h[j].number)
  }

  /** The bytes with a given fate. */
  function Total(h: seq<Packet>, fate: Fate): nat {
    if h == [] then 0 else (if h[0].fate == fate then h[0].size else 0) + Total(h[1..], fate)
  }

  function TotalSent(h: seq<Packet>): nat {
    if h == [] then 0 else h[0].size + TotalSent(h[1..])
  }

  /** The size of the live packet with a number, or -1. */
  function LiveSize(h: seq<Packet>, n: int): int {
    if h == [] then -1
    else if h[0].number == n && h[0].fate == Live then h[0].size
    else LiveSize(h[1..], n)
  }

  /** The number of the last packet that was tracked, or -1. */
  function LastTracked(h: seq<Packet>): int {
    if h == [] then -1
    else if h[|h| - 1].fate != Untracked then h[|h| - 1].number
    else LastTracked(h[..|h| - 1])
  }

  function Sent(h: seq<Packet>, n: int, size: nat): seq<Packet> {
    h + [Packet(n, size, if LastTracked(h) >= 0 && LastTracked(h) + MAX_TRACKED < n then Untracked else Live)]
  }

  function Decided(p: Packet, low: int, high: int, fate: Fate): Packet {
    if p.fate == Live && low <= p.number < high then p.(fate := fate) else p
  }

  /** The live packets from low up to, not including, high meet their fate. */
  function Settle(h: seq<Packet>, low: int, high: int, fate: Fate): seq<Packet> {
    if h == [] then [] else [Decided(h[0], low, high, fate)] + Settle(h[1..], low, high, fate)
  }

  // ---- what the reference keeps ----

  lemma {:induction false} SettleElements(h: seq<Packet>, low: int, high: int, fate: Fate)
    ensures |Settle(h, low, high, fate)| == |h|
    ensures forall i :: 0 <= i < |h| ==> Settle(h, low, high, fate)[i] == Decided(h[i], low, high, fate)
  {
    if h != [] { SettleElements(h[1..], low, high, fate); }
  }

  lemma {:induction false} SettleLiveSize(h: seq<Packet>, low: int, high: int, fate: Fate, n: int)
    requires fate != Live
    ensures LiveSize(Settle(h, low, high, fate), n) == if low <= n < high then -1 else LiveSize(h, n)
  {
    if h != [] {
      SettleLiveSize(h[1..], low, high, fate, n);
      assert Settle(h, low, high, fate)[1..] == Settle(h[1..], low, high, fate);
    }
  }

  lemma {:induction false} SentLiveSize(h: seq<Packet>, p: Packet, n: int)
    requires forall q :: q in h ==> q.number != p.number
    ensures LiveSize(h + [p], n) == if n == p.number && p.fate == Live then p.size else LiveSize(h, n)
  {
    if h != [] {
      assert h[0] in h;
      SentLiveSize(h[1..], p, n);
      assert (h + [p])[1..] == h[1..] + [p];
    } else {
      assert (h + [p])[1..] == [];
    }
  }

  lemma {:induction false} TotalAppend(h: seq<Packet>, p: Packet, fate: Fate)
    ensures Total(h + [p], fate) == Total(h, fate) + if p.fate == fate then p.size else 0
    ensures TotalSent(h + [p]) == TotalSent(h) + p.size
  {
    if h != [] {
      TotalAppend(h[1..], p, fate);
      assert (h + [p])[1..] == h[1..] + [p];
    } else {
      assert (h + [p])[1..] == [];
    }
  }

  function NonNegative(n: int): nat { if n < 0 then 0 else n }

  /** Settling one number moves exactly its bytes. */
  lemma {:induction false} SettleTotal(h: seq<Packet>, n: int, fate: Fate)
    requires Ordered(h) && fate != Live
    ensures Total(Settle(h, n, n + 1, fate), fate) == Total(h, fate) + NonNegative(LiveSize(h, n))
    ensures TotalSent(Settle(h, n, n + 1, fate)) == TotalSent(h)
  {
    if h != [] {
      SettleTotal(h[1..], n, fate);
      assert Settle(h, n, n + 1, fate)[1..] == Settle(h[1..], n, n + 1, fate);
      if h[0].number == n { NotLater(h, n); }
    }
  }

  lemma NotLater(h: seq<Packet>, n: int)
    requires Ordered(h) && h != [] && h[0].number >= n
    ensures LiveSize(h[1..], n) == -1
  {
    AllAbove(h[1..], n);
  }

  lemma {:induction false} AllAbove(h: seq<Packet>, n: int)
    requires forall i :: 0 <= i < |h| ==> h[i].number > n
    ensures LiveSize(h, n) == -1
  {
    if h != [] { AllAbove(h[1..], n); }
  }

  /** Settling with one fate leaves the bytes of the other decided fates. */
  lemma {:induction false} SettleOthers(h: seq<Packet>, low: int, high: int, fate: Fate, other: Fate)
    requires fate != other && other != Live
    ensures Total(Settle(h, low, high, fate), other) == Total(h, other)
    ensures TotalSent(Settle(h, low, high, fate)) == TotalSent(h)
  {
    if h != [] {
      SettleOthers(h[1..], low, high, fate, other);
      assert Settle(h, low, high, fate)[1..] == Settle(h[1..], low, high, fate);
    }
  }

  lemma {:induction false} SettleTracked(h: seq<Packet>, low: int, high: int, fate: Fate)
    requires fate != Untracked
    ensures LastTracked(Settle(h, low, high, fate)) == LastTracked(h)
  {
    SettleElements(h, low, high, fate);
    if h != [] {
      var k := |h| - 1;
      SettleTracked(h[..k], low, high, fate);
      SettleElements(h[..k], low, high, fate);
      assert Settle(h, low, high, fate)[..k] == Settle(h[..k], low, high, fate);
    }
  }

  lemma SettleOrdered(h: seq<Packet>, low: int, high: int, fate: Fate)
    requires Ordered(h)
    ensures Ordered(Settle(h, low, high, fate))
  {
    SettleElements(h, low, high, fate);
  }

  /** Every byte sent has exactly one fate. */
  lemma {:induction false} BytesAreConserved(h: seq<Packet>)
    ensures TotalSent(h) == Total(h, Acked) + Total(h, Dropped) + Total(h, Untracked) + Total(h, Live)
  {
    if h != [] { BytesAreConserved(h[1..]); }
  }
}

/** The ring of points as a value. */
module SamplerRings {
  import opened PacketLedgers

  const SIZE: nat := 1024

  datatype Point = Point(size: nat, ignored: bool)

  datatype Ring = Ring(points: seq<Point>, start: int, index: int, sent: nat, acked: nat)

  function Empty(): Ring {
    Ring(seq(SIZE, _ => Point(0, true)), -1, -1, 0, 0)
  }

  function Slot(n: int): (k: nat)
    ensures k < SIZE
  {
    n % SIZE
  }

  /** Slots that no number from start to index owns are ignored. */
  predicate FreeAt(r: Ring, n: int)
    requires |r.points| == SIZE
  {
    r.index < n < r.start + SIZE ==> r.points[Slot(n)].ignored
  }

  ghost predicate Ok(r: Ring) {
    && |r.points| == SIZE
    && -1 <= r.start <= r.index < r.start + SIZE
    && (r.start == -1 <==> r.index == -1)
    && (r.start == -1 ==> forall k :: 0 <= k < SIZE ==> r.points[k].ignored)
    && forall n :: FreeAt(r, n)
  }

  predicate InSpan(r: Ring, n: int) { r.start <= n <= r.index }

  /** sampler_get_data_size with -1 for none. */
  function HeldSize(r: Ring, n: int): int
    requires |r.points| == SIZE
  {
    if InSpan(r, n) && !r.points[Slot(n)].ignored then r.points[Slot(n)].size else -1
  }

  /** sampler_add_point for a number after the index, where the ring is not resized. */
  function Add(r: Ring, n: int, size: nat): (s: Ring)
    requires |r.points| == SIZE
    ensures |s.points| == SIZE
  {
    if n <= r.start then r
    else
      r.(start := if r.start == -1 then n else r.start, index := n, points := r.points[Slot(n) := Point(size, false)])
  }

  /** sampler_on_packet_sent. */
  function Send(r: Ring, n: int, size: nat): (s: Ring)
    requires |r.points| == SIZE
    ensures |s.points| == SIZE
  {
    var s := r.(sent := r.sent + size);
    if s.index >= 0 && s.index + MAX_TRACKED < n then s else Add(s, n, size)
  }

  /** sampler_remove_point. */
  function Remove(r: Ring, n: int): (s: Ring)
    requires |r.points| == SIZE
    ensures |s.points| == SIZE
  {
    if !InSpan(r, n) then r
    else
      var p := r.points[Slot(n)];
      var s := r.(points := r.points[Slot(n) := Point(if r.start == n then 0 else p.size, true)]);
      if r.start == n && r.index > r.start then s.(start := r.start + 1) else s
  }

  /** sampler_on_packet_acked. */
  function Ack(r: Ring, n: int): (s: Ring)
    requires |r.points| == SIZE
    ensures |s.points| == SIZE
  {
    if HeldSize(r, n) < 0 then r
    else Remove(r.(acked := r.acked + HeldSize(r, n)), n)
  }

  /** sampler_remove_old. */
  function RemoveOld(r: Ring, least: int): (s: Ring)
    requires |r.points| == SIZE
    ensures |s.points| == SIZE
    decreases r.index - r.start
  {
    if r.start < least && r.start < r.index then RemoveOld(Remove(r, r.start), least) else r
  }

  // ---- the ring and the ledger ----

  predicate Same(r: Ring, h: seq<Packet>, n: int)
    requires |r.points| == SIZE
  {
    HeldSize(r, n) == LiveSize(h, n)
  }

  /** The ring holds exactly the live packets of the ledger, and the two totals are the ledger's. */
  ghost predicate Agrees(r: Ring, h: seq<Packet>) {
    && Ok(r) && Ordered(h)
    && r.index == LastTracked(h)
    && r.sent == TotalSent(h) && r.acked == Total(h, Acked)
    && forall n :: n >= 0 ==> Same(r, h, n)
  }

  lemma SlotsApart(m: int, n: int)
    requires 0 < n - m < SIZE
    ensures Slot(m) != Slot(n)
  {
  }

  lemma SlotsMeet(m: int)
    ensures Slot(m) == Slot(m + SIZE)
  {
  }

  /** Removing one number in the span: it is no longer held, the others are. */
  lemma RemoveHeld(r: Ring, n: int, m: int)
    requires Ok(r) && InSpan(r, n) && n >= 0
    ensures HeldSize(Remove(r, n), m) == if m == n then -1 else HeldSize(r, m)
  {
  }

  lemma RemoveOk(r: Ring, n: int)
    requires Ok(r) && n >= 0
    ensures Ok(Remove(r, n))
  {
    var s := Remove(r, n);
    if InSpan(r, n) {
      forall m ensures FreeAt(s, m) {
        assert FreeAt(r, m);
        if m == r.start + SIZE { SlotsMeet(r.start); }
      }
    }
  }

  lemma SettleSame(r: Ring, h: seq<Packet>, n: int, fate: Fate, m: int)
    requires Ok(r) && InSpan(r, n) && n >= 0 && fate != Live && Same(r, h, m)
    ensures Same(Remove(r, n), Settle(h, n, n + 1, fate), m)
  {
    RemoveHeld(r, n, m);
    SettleLiveSize(h, n, n + 1, fate, m);
  }

  /** The totals do not matter to the ring. */
  lemma TotalsOk(r: Ring, sent: nat, acked: nat)
    requires Ok(r)
    ensures Ok(r.(sent := sent, acked := acked))
  {
    var q := r.(sent := sent, acked := acked);
    forall m ensures FreeAt(q, m) { assert FreeAt(r, m); }
  }

  lemma SettleAgrees(r: Ring, h: seq<Packet>, n: int, fate: Fate, credit: nat)
    requires Agrees(r, h) && InSpan(r, n) && n >= 0 && fate in {Acked, Dropped}
    requires credit == if fate == Acked then NonNegative(HeldSize(r, n)) else 0
    ensures Agrees(Remove(r.(acked := r.acked + credit), n), Settle(h, n, n + 1, fate))
  {
    var s, g := Remove(r.(acked := r.acked + credit), n), Settle(h, n, n + 1, fate);
    assert Same(r, h, n);
    TotalsOk(r, r.sent, r.acked + credit);
    RemoveOk(r.(acked := r.acked + credit), n);
    SettleParts(r, h, n, fate, credit);
    SettleAllSame(r, h, n, fate, s, g);
    Assembled(s, g);
  }

  lemma SettleParts(r: Ring, h: seq<Packet>, n: int, fate: Fate, credit: nat)
    requires |r.points| == SIZE && Ordered(h) && fate in {Acked, Dropped}
    requires r.index == LastTracked(h) && r.sent == TotalSent(h) && r.acked == Total(h, Acked)
    requires credit == if fate == Acked then NonNegative(LiveSize(h, n)) else 0
    ensures var s, g := Remove(r.(acked := r.acked + credit), n), Settle(h, n, n + 1, fate);
      && Ordered(g) && s.index == LastTracked(g) && s.sent == TotalSent(g) && s.acked == Total(g, Acked)
  {
    SettleOrdered(h, n, n + 1, fate);
    SettleTracked(h, n, n + 1, fate);
    SettleTotals(h, n, fate);
  }

  lemma SettleAllSame(r: Ring, h: seq<Packet>, n: int, fate: Fate, s: Ring, g: seq<Packet>)
    requires Ok(r) && InSpan(r, n) && n >= 0 && fate != Live
    requires forall m :: m >= 0 ==> Same(r, h, m)
    requires |s.points| == SIZE && s == Remove(r.(acked := s.acked), n) && g == Settle(h, n, n + 1, fate)
    ensures forall m :: m >= 0 ==> Same(s, g, m)
  {
    var q := r.(acked := s.acked);
    TotalsOk(r, r.sent, s.acked);
    forall m | m >= 0 ensures Same(s, g, m) {
      assert Same(r, h, m) && Same(q, h, m);
      SettleSame(q, h, n, fate, m);
    }
  }

  lemma SettleTotals(h: seq<Packet>, n: int, fate: Fate)
    requires Ordered(h) && fate in {Acked, Dropped}
    ensures TotalSent(Settle(h, n, n + 1, fate)) == TotalSent(h)
    ensures Total(Settle(h, n, n + 1, fate), Acked)
            == Total(h, Acked) + if fate == Acked then NonNegative(LiveSize(h, n)) else 0
  {
    if fate == Acked { SettleTotal(h, n, fate); } else { SettleOthers(h, n, n + 1, fate, Acked); }
  }

  /** An ack credits the packet if it is live, and settles it. */
  lemma AckAgrees(r: Ring, h: seq<Packet>, n: int)
    requires Agrees(r, h) && n >= 0
    ensures Agrees(Ack(r, n), Settle(h, n, n + 1, Acked))
  {
    assert Same(r, h, n);
    if HeldSize(r, n) >= 0 {
      SettleAgrees(r, h, n, Acked, HeldSize(r, n));
    } else {
      NothingToSettle(h, n, Acked);
    }
  }

  lemma {:induction false} NothingToSettle(h: seq<Packet>, n: int, fate: Fate)
    requires LiveSize(h, n) < 0
    ensures Settle(h, n, n + 1, fate) == h
  {
    if h != [] { NothingToSettle(h[1..], n, fate); }
  }

  /** A loss drops the packet if it is live. */
  lemma LossAgrees(r: Ring, h: seq<Packet>, n: int)
    requires Agrees(r, h) && n >= 0
    ensures Agrees(Remove(r, n), Settle(h, n, n + 1, Dropped))
  {
    assert Same(r, h, n);
    if InSpan(r, n) {
      SettleAgrees(r, h, n, Dropped, 0);
      assert r.(acked := r.acked + 0) == r;
    } else {
      NothingToSettle(h, n, Dropped);
    }
  }

  /** Removing the old packets drops the live ones below the limit, but never the last one tracked. */
  lemma {:induction false} RemoveOldAgrees(r: Ring, h: seq<Packet>, least: int)
    requires Agrees(r, h)
    ensures Agrees(RemoveOld(r, least), Settle(h, 0, Lower(least, r.index), Dropped))
    decreases r.index - r.start
  {
    if r.start < least && r.start < r.index {
      var g := Settle(h, r.start, r.start + 1, Dropped);
      LossAgrees(r, h, r.start);
      RemoveOldAgrees(Remove(r, r.start), g, least);
      NoneBelow(r, h);
      SettleJoins(h, r.start, Lower(least, r.index));
    } else {
      forall n | 0 <= n < Lower(least, r.index) ensures LiveSize(h, n) == -1 {
        assert Same(r, h, n);
      }
      NothingInRange(h, 0, Lower(least, r.index));
    }
  }

  function Lower(a: int, b: int): int { if a < b then a else b }

  lemma NoneBelow(r: Ring, h: seq<Packet>)
    requires Agrees(r, h)
    ensures forall n :: 0 <= n < r.start ==> LiveSize(h, n) == -1
  {
    forall n | 0 <= n < r.start ensures LiveSize(h, n) == -1 {
      assert Same(r, h, n);
    }
  }

  lemma {:induction false} LiveIsFound(h: seq<Packet>, i: nat)
    requires i < |h| && h[i].fate == Live
    ensures LiveSize(h, h[i].number) >= 0
  {
    if i > 0 { LiveIsFound(h[1..], i - 1); }
  }

  lemma NothingInRange(h: seq<Packet>, low: int, high: int)
    requires forall n :: low <= n < high ==> LiveSize(h, n) == -1
    ensures Settle(h, low, high, Dropped) == h
  {
    SettleElements(h, low, high, Dropped);
    forall i | 0 <= i < |h| ensures Decided(h[i], low, high, Dropped) == h[i] {
      if h[i].fate == Live { LiveIsFound(h, i); }
    }
  }

  /** Dropping the first live packet and then those below the limit drops those below the limit. */
  lemma SettleJoins(h: seq<Packet>, start: int, high: int)
    requires 0 <= start < high && forall n :: 0 <= n < start ==> LiveSize(h, n) == -1
    ensures Settle(Settle(h, start, start + 1, Dropped), 0, high, Dropped) == Settle(h, 0, high, Dropped)
  {
    var g := Settle(h, start, start + 1, Dropped);
    SettleElements(h, start, start + 1, Dropped);
    SettleElements(g, 0, high, Dropped);
    SettleElements(h, 0, high, Dropped);
  }

  // ---- sending ----

  lemma SendHeld(r: Ring, n: int, size: nat, m: int)
    requires Ok(r) && n > r.index && n >= 0 && (r.start >= 0 ==> n < r.start + SIZE)
    ensures HeldSize(Add(r, n, size), m) == if m == n then size else HeldSize(r, m)
  {
    var s := Add(r, n, size);
    if InSpan(s, m) && m != n {
      SlotsApart(m, n);
      assert FreeAt(r, m);
    }
  }

  lemma SendOk(r: Ring, n: int, size: nat)
    requires Ok(r) && n > r.index && n >= 0 && (r.start >= 0 ==> n < r.start + SIZE)
    ensures Ok(Add(r, n, size))
  {
    var s := Add(r, n, size);
    forall m ensures FreeAt(s, m) {
      assert FreeAt(r, m);
      if s.index < m < s.start + SIZE { SlotsApart(n, m); }
    }
  }

  predicate Later(h: seq<Packet>, n: int) { n >= 0 && (h != [] ==> n > h[|h| - 1].number) }

  lemma {:induction false} TrackedIsSent(h: seq<Packet>)
    requires Ordered(h)
    ensures h == [] ==> LastTracked(h) == -1
    ensures h != [] ==> -1 <= LastTracked(h) <= h[|h| - 1].number
  {
    if h != [] { TrackedIsSent(h[..|h| - 1]); }
  }

  lemma SentTracked(h: seq<Packet>, p: Packet)
    ensures LastTracked(h + [p]) == if p.fate != Untracked then p.number else LastTracked(h)
  {
  }

  /** The packet is too far ahead to be tracked. */
  predicate TooFar(r: Ring, n: int) { r.index >= 0 && r.index + MAX_TRACKED < n }

  lemma SentLedger(r: Ring, h: seq<Packet>, n: int, size: nat)
    requires Agrees(r, h) && Later(h, n)
    ensures var g := Sent(h, n, size);
      && g == h + [Packet(n, size, if TooFar(r, n) then Untracked else Live)]
      && Ordered(g) && TotalSent(g) == r.sent + size && Total(g, Acked) == r.acked
      && LastTracked(g) == if TooFar(r, n) then r.index else n
  {
    var p := Packet(n, size, if TooFar(r, n) then Untracked else Live);
    TotalAppend(h, p, Acked);
    SentTracked(h, p);
  }

  lemma SentSize(r: Ring, h: seq<Packet>, n: int, size: nat, m: int)
    requires Agrees(r, h) && Later(h, n) && m >= 0
    ensures LiveSize(Sent(h, n, size), m) == if m == n && !TooFar(r, n) then size else HeldSize(r, m)
  {
    assert Same(r, h, m);
    SentLiveSize(h, Packet(n, size, if TooFar(r, n) then Untracked else Live), m);
    if m == n { TrackedIsSent(h); }
  }

  lemma LaterIsAfter(r: Ring, h: seq<Packet>, n: int)
    requires Agrees(r, h) && Later(h, n)
    ensures n > r.index && n >= 0 && Ok(r)
  {
    TrackedIsSent(h);
  }

  /** A packet is sent within the ring, or so far ahead that it is not tracked. */
  lemma SendAgrees(r: Ring, h: seq<Packet>, n: int, size: nat)
    requires Agrees(r, h) && Later(h, n) && (r.start >= 0 ==> n < r.start + SIZE || TooFar(r, n))
    ensures Agrees(Send(r, n, size), Sent(h, n, size))
  {
    LaterIsAfter(r, h, n);
    SentLedger(r, h, n, size);
    SendKeepsOk(r, n, size);
    AllSame(r, h, n, size);
    Assembled(Send(r, n, size), Sent(h, n, size));
  }

  lemma Assembled(r: Ring, h: seq<Packet>)
    requires Ok(r) && Ordered(h) && r.index == LastTracked(h) && r.sent == TotalSent(h) && r.acked == Total(h, Acked)
    requires forall n :: n >= 0 ==> Same(r, h, n)
    ensures Agrees(r, h)
  {
  }

  lemma AllSame(r: Ring, h: seq<Packet>, n: int, size: nat)
    requires Agrees(r, h) && Later(h, n) && (r.start >= 0 ==> n < r.start + SIZE || TooFar(r, n)) && n > r.index
    ensures forall m :: m >= 0 ==> Same(Send(r, n, size), Sent(h, n, size), m)
  {
    forall m | m >= 0 ensures Same(Send(r, n, size), Sent(h, n, size), m) {
      SendSame(r, h, n, size, m);
    }
  }

  lemma SendKeepsOk(r: Ring, n: int, size: nat)
    requires Ok(r) && n > r.index && n >= 0 && (r.start >= 0 ==> n < r.start + SIZE || TooFar(r, n))
    ensures var s := Send(r, n, size);
      Ok(s) && s.sent == r.sent + size && s.acked == r.acked && s.index == if TooFar(r, n) then r.index else n
  {
    var q := r.(sent := r.sent + size);
    TotalsOk(r, r.sent + size, r.acked);
    if !TooFar(r, n) { SendOk(q, n, size); }
  }

  lemma SendSame(r: Ring, h: seq<Packet>, n: int, size: nat, m: int)
    requires Agrees(r, h) && Later(h, n) && (r.start >= 0 ==> n < r.start + SIZE || TooFar(r, n)) && m >= 0
    requires n > r.index
    ensures Same(Send(r, n, size), Sent(h, n, size), m)
  {
    var q := r.(sent := r.sent + size);
    TotalsOk(r, r.sent + size, r.acked);
    SentSize(r, h, n, size, m);
    if !TooFar(r, n) { SendHeld(q, n, size, m); }
  }

  /** The resize test lets one number too many into the ring: its slot is the first packet's. */
  lemma ResizeTestIsOffByOne(r: Ring, h: seq<Packet>, n: int, size: nat)
    requires Agrees(r, h) && Later(h, n) && r.start >= 0 && n <= r.start + SIZE
    ensures (forall m :: m >= 0 ==> Same(Send(r, n, size), Sent(h, n, size), m))
            <==> n < r.start + SIZE || HeldSize(r, r.start) == size
  {
    TrackedIsSent(h);
    var s, g := Send(r, n, size), Sent(h, n, size);
    if n < r.start + SIZE {
      SendAgrees(r, h, n, size);
    } else {
      SlotsMeet(r.start);
      SentSize(r, h, n, size, r.start);
      assert HeldSize(s, r.start) == size;
      if HeldSize(r, r.start) == size {
        forall m | m >= 0 ensures Same(s, g, m) {
          SentSize(r, h, n, size, m);
          if r.start < m < n { SlotsApart(m, n); assert FreeAt(r, m); }
        }
      } else {
        assert !Same(s, g, r.start);
      }
    }
  }
}

/** Every run of the sampler. */
module SamplerRuns {
  import opened PacketLedgers
  import opened SamplerRings

  datatype Op = SendOp(number: int, size: nat) | AckOp(number: int) | LossOp(number: int) | OldOp(least: int)

  datatype State = State(ring: Ring, ledger: seq<Packet>)

  predicate Enabled(st: State, op: Op) {
    match op
    case SendOp(n, _) =>
      Later(st.ledger, n) && (st.ring.start >= 0 ==> n < st.ring.start + SIZE || TooFar(st.ring, n))
    case AckOp(n) => n >= 0
    case LossOp(n) => n >= 0
    case OldOp(_) => true
  }

  function RingStep(r: Ring, op: Op): (s: Ring)
    requires |r.points| == SIZE
    ensures |s.points| == SIZE
  {
    match op
    case SendOp(n, size) => Send(r, n, size)
    case AckOp(n) => Ack(r, n)
    case LossOp(n) => Remove(r, n)
    case OldOp(least) => RemoveOld(r, least)
  }

  function LedgerStep(h: seq<Packet>, index: int, op: Op): seq<Packet> {
    match op
    case SendOp(n, size) => Sent(h, n, size)
    case AckOp(n) => Settle(h, n, n + 1, Acked)
    case LossOp(n) => Settle(h, n, n + 1, Dropped)
    case OldOp(least) => Settle(h, 0, Lower(least, index), Dropped)
  }

  function Step(st: State, op: Op): State
    requires |st.ring.points| == SIZE
  {
    State(RingStep(st.ring, op), LedgerStep(st.ledger, st.ring.index, op))
  }

  ghost predicate Inv(st: State) { Agrees(st.ring, st.ledger) }

  lemma StepKeeps(st: State, op: Op)
    requires Inv(st) && Enabled(st, op)
    ensures Inv(Step(st, op))
  {
    match op
    case SendOp(n, size) => SendAgrees(st.ring, st.ledger, n, size);
    case AckOp(n) => AckAgrees(st.ring, st.ledger, n);
    case LossOp(n) => LossAgrees(st.ring, st.ledger, n);
    case OldOp(least) => RemoveOldAgrees(st.ring, st.ledger, least);
  }

  predicate Feasible(st: State, ops: seq<Op>)
    requires |st.ring.points| == SIZE
    decreases |ops|
  {
    ops == [] || (Enabled(st, ops[0]) && Feasible(Step(st, ops[0]), ops[1..]))
  }

  function Run(st: State, ops: seq<Op>): (end: State)
    requires |st.ring.points| == SIZE
    ensures |end.ring.points| == SIZE
    decreases |ops|
  {
    if ops == [] then st else Run(Step(st, ops[0]), ops[1..])
  }

  lemma {:induction false} RunKeeps(st: State, ops: seq<Op>)
    requires Inv(st) && Feasible(st, ops)
    ensures Inv(Run(st, ops))
    decreases |ops|
  {
    if ops != [] {
      StepKeeps(st, ops[0]);
      RunKeeps(Step(st, ops[0]), ops[1..]);
    }
  }

  function Start(): State { State(Empty(), []) }

  lemma StartOk()
    ensures Inv(Start())
  {
    forall n ensures FreeAt(Empty(), n) { }
    forall n | n >= 0 ensures Same(Empty(), [], n) { }
  }

  /** Over every run the bytes sent are the bytes acked, dropped, never tracked and still live. */
  lemma RunConserves(ops: seq<Op>)
    requires Feasible(Start(), ops)
    ensures var st := Run(Start(), ops);
      && st.ring.sent == st.ring.acked + Total(st.ledger, Dropped) + Total(st.ledger, Untracked)
                         + Total(st.ledger, Live)
      && st.ring.acked == Total(st.ledger, Acked)
      && forall n :: n >= 0 ==> HeldSize(st.ring, n) == LiveSize(st.ledger, n)
  {
    StartOk();
    RunKeeps(Start(), ops);
    var st := Run(Start(), ops);
    BytesAreConserved(st.ledger);
    forall n | n >= 0 ensures HeldSize(st.ring, n) == LiveSize(st.ledger, n) {
      assert Same(st.ring, st.ledger, n);
    }
  }

  lemma StepFates(st: State, op: Op, i: nat)
    requires |st.ring.points| == SIZE && i < |st.ledger|
    ensures var after := Step(st, op).ledger;
      |after| >= |st.ledger| && after[i].number == st.ledger[i].number && after[i].size == st.ledger[i].size
      && (st.ledger[i].fate != Live ==> after[i] == st.ledger[i])
  {
    var h := st.ledger;
    match op
    case SendOp(_, _) =>
    case AckOp(n) => SettleElements(h, n, n + 1, Acked);
    case LossOp(n) => SettleElements(h, n, n + 1, Dropped);
    case OldOp(least) => SettleElements(h, 0, Lower(least, st.ring.index), Dropped);
  }

  /** A packet meets one fate: once acked, dropped or untracked it stays so, whatever follows. */
  lemma {:induction false} FatesAreFinal(st: State, ops: seq<Op>, i: nat)
    requires |st.ring.points| == SIZE && i < |st.ledger| && st.ledger[i].fate != Live
    ensures |Run(st, ops).ledger| > i && Run(st, ops).ledger[i] == st.ledger[i]
    decreases |ops|
  {
    if ops != [] {
      StepFates(st, ops[0], i);
      FatesAreFinal(Step(st, ops[0]), ops[1..], i);
    }
  }

  /** An ack of a packet that is not live credits nothing. */
  lemma AckCreditsLive(st: State, n: int)
    requires Inv(st) && n >= 0
    ensures Step(st, AckOp(n)).ring.acked == st.ring.acked + NonNegative(LiveSize(st.ledger, n))
    ensures LiveSize(Step(st, AckOp(n)).ledger, n) == -1
  {
    assert Same(st.ring, st.ledger, n);
    SettleLiveSize(st.ledger, n, n + 1, Acked, n);
  }

  /** The last packet sent was too far ahead of the last one tracked. */
  predicate Lost(h: seq<Packet>) {
    h != [] && LastTracked(h) >= 0 && LastTracked(h) + MAX_TRACKED < h[|h| - 1].number
  }

  lemma LedgerStaysLost(h: seq<Packet>, index: int, op: Op)
    requires Lost(h) && (op.SendOp? ==> Later(h, op.number))
    ensures var g := LedgerStep(h, index, op); Lost(g) && LastTracked(g) == LastTracked(h)
  {
    match op
    case SendOp(n, size) => SentTracked(h, Packet(n, size, Untracked));
    case AckOp(n) => SettleKeepsEnd(h, n, n + 1, Acked);
    case LossOp(n) => SettleKeepsEnd(h, n, n + 1, Dropped);
    case OldOp(least) => SettleKeepsEnd(h, 0, Lower(least, index), Dropped);
  }

  lemma SettleKeepsEnd(h: seq<Packet>, low: int, high: int, fate: Fate)
    requires h != [] && fate != Untracked
    ensures var g := Settle(h, low, high, fate);
      |g| == |h| && g[|g| - 1].number == h[|h| - 1].number && LastTracked(g) == LastTracked(h)
  {
    SettleElements(h, low, high, fate);
    SettleTracked(h, low, high, fate);
  }

  /** After one packet more than 10000 ahead, no later packet is ever tracked. */
  lemma {:induction false} NeverTrackedAgain(st: State, ops: seq<Op>)
    requires Inv(st) && Feasible(st, ops) && Lost(st.ledger)
    ensures Run(st, ops).ring.index == st.ring.index && Lost(Run(st, ops).ledger)
    decreases |ops|
  {
    if ops != [] {
      StepKeeps(st, ops[0]);
      LedgerStaysLost(st.ledger, st.ring.index, ops[0]);
      NeverTrackedAgain(Step(st, ops[0]), ops[1..]);
    }
  }
}

/** The sampler object with its ring of points. */
module BandwidthSamplers {
  import opened PacketLedgers
  import opened SamplerRings

  class BandwidthSampler {
    const points: array<Point>
    var start: int
    var index: int
    var sent: nat
    var acked: nat

    ghost predicate Valid()
      reads this
    {
      points.Length == SIZE
    }

    ghost function Abs(): (r: Ring)
      reads this, points
      ensures |r.points| == points.Length
    {
      Ring(points[..], start, index, sent, acked)
    }

    constructor ()
      ensures Valid() && Abs() == Empty() && fresh(points)
    {
      points := new Point[SIZE](_ => Point(0, true));
      start, index, sent, acked := -1, -1, 0, 0;
      new;
      assert points[..] == Empty().points;
    }

    method AddPoint(n: int, size: nat)
      requires Valid()
      modifies this`start, this`index, points
      ensures Abs() == Add(old(Abs()), n, size)
    {
      if n <= start {
        return;
      }
      if start == -1 {
        start := n;
      }
      index := n;
      points[Slot(n)] := Point(size, false);
    }

    method RemovePoint(n: int)
      requires Valid()
      modifies this`start, points
      ensures Abs() == Remove(old(Abs()), n)
    {
      if start > n || index < n {
        return;
      }
      points[Slot(n)] := points[Slot(n)].(ignored := true);
      if start == n {
        points[Slot(n)] := Point(0, true);
        if index > start {
          start := start + 1;
        }
      }
    }

    method OnPacketSent(n: int, size: nat)
      requires Valid()
      modifies this`start, this`index, this`sent, points
      ensures Abs() == Send(old(Abs()), n, size)
    {
      sent := sent + size;
      if index >= 0 && index + MAX_TRACKED < n {
        return;
      }
      AddPoint(n, size);
    }

    method OnPacketAcked(n: int)
      requires Valid()
      modifies this`start, this`acked, points
      ensures Abs() == Ack(old(Abs()), n)
    {
      if start > n || index < n {
        return;
      }
      if points[Slot(n)].ignored {
        return;
      }
      acked := acked + points[Slot(n)].size;
      RemovePoint(n);
    }

    method OnPacketLost(n: int)
      requires Valid()
      modifies this`start, points
      ensures Abs() == Remove(old(Abs()), n)
    {
      RemovePoint(n);
    }

    method RemoveOldPoints(least: int)
      requires Valid()
      modifies this`start, points
      ensures Abs() == RemoveOld(old(Abs()), least)
    {
      while start < least && start < index
        invariant RemoveOld(Abs(), least) == RemoveOld(old(Abs()), least)
        decreases index - start
        modifies this`start, points
      {
        RemovePoint(start);
      }
    }

    method GetDataSize(n: int) returns (size: nat)
      requires Valid()
      ensures size == NonNegative(HeldSize(Abs(), n))
    {
      if start > n || index < n {
        return 0;
      }
      size := if points[Slot(n)].ignored then 0 else points[Slot(n)].size;
    }
  }
}
