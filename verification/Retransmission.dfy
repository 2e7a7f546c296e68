// Loss detection, acknowledgement and the retransmission cache
// (ReCapABR/sim_transport/sim_receiver.c and sim_sender.c).

/** Both ends of the retransmission protocol as values, and what each operation does to them. */
module Retransmission {
  import opened Wrappers
  import opened Segments
  import opened Reassembly
  import opened Fragmenter

  const ACK_NUM: nat := 20

  /** An acknowledgement as it travels: offsets from the base are 16-bit. */
  datatype Ack = Ack(base: nat, ackedId: nat, acked: seq<nat>, nacks: seq<nat>)

  function Offset16(id: nat, base: nat): nat
    requires base <= id
  {
    (id - base) % U16
  }

  // ---- receiver ----

  datatype Receiver = Receiver(
    cache: Cache, base: nat, max: nat, maxTs: nat, loss: set<nat>, ackeds: seq<nat>, ackedCount: nat)

  const IDLE := Receiver(EMPTY, 0, 0, 0, {}, seq(ACK_NUM, _ => 0), 0)

  /** The ids strictly between two ids. */
  function Between(lo: nat, hi: nat): (s: set<nat>)
    ensures forall i: nat :: i in s <==> lo < i < hi
    decreases hi
  {
    if hi <= lo + 1 then {} else Between(lo, hi - 1) + {hi - 1}
  }

  /** Whether the arriving timestamp or the round trip time makes the receiver ask for a key frame instead. */
  predicate AsksKeyFrame(r: Receiver, g: Segment, slow: bool) {
    r.maxTs + 3000 < g.timestamp || slow
  }

  /** sim_receiver_update_loss. */
  function UpdateLoss(r: Receiver, g: Segment, slow: bool): set<nat> {
    if AsksKeyFrame(r, g, slow) then {} else (r.loss - {g.packetId}) + Between(r.max, g.packetId)
  }

  /** The first segment of a key frame fixes where the numbering starts. */
  function Seat(r: Receiver, g: Segment): Receiver {
    if r.max == 0 && g.packetId > g.index then
      r.(max := g.packetId - g.index - 1, base := g.packetId - g.index - 1, maxTs := g.timestamp)
    else r
  }

  predicate Ignores(r: Receiver, g: Segment) {
    (r.max == 0 && g.ftype == 0) || g.packetId <= r.base
  }

  function Max(a: nat, b: nat): nat {
    if a > b then a else b
  }

  /** sim_receiver_internal_put on an active receiver. */
  function Receive(r: Receiver, g: Segment, slow: bool): (Receiver, bool)
    requires CacheOk(r.cache) && CanPut(r.cache, g) && |r.ackeds| == ACK_NUM
  {
    if Ignores(r, g) then (r, false)
    else
      var s := Seat(r, g);
      var t := s.(loss := UpdateLoss(s, g, slow));
      var (c, ok) := Put(t.cache, g);
      (if ok then Recorded(t.(cache := c), g) else t.(cache := c), ok)
  }

  function Recorded(r: Receiver, g: Segment): Receiver
    requires |r.ackeds| == ACK_NUM
  {
    r.(max := Max(r.max, g.packetId), maxTs := Max(r.maxTs, g.timestamp),
       ackeds := r.ackeds[r.ackedCount % ACK_NUM := g.packetId], ackedCount := (r.ackedCount + 1) % 256)
  }

  function SetMin(s: set<nat>): (m: nat)
    requires s != {}
    ensures m in s && forall i :: i in s ==> m <= i
  {
    var x :| x in s;
    DescendToMin(s, x);
    var m :| m in s && forall i :: i in s ==> m <= i;
    m
  }

  lemma {:induction false} DescendToMin(s: set<nat>, x: nat)
    requires x in s
    ensures exists m :: m in s && forall i :: i in s ==> m <= i
    decreases x
  {
    if y :| y in s && y < x { DescendToMin(s, y); }
  }

  /** video_real_update_base. */
  function UpdateBase(r: Receiver): Receiver {
    var loss := set i | i in r.loss && !(r.base < i <= r.cache.minSeq);
    var base := if loss == {} then r.max else if SetMin(loss) > 0 then SetMin(loss) - 1 else r.base;
    r.(loss := loss, base := base)
  }

  /** The acknowledged offsets: ids received since the last acknowledgement that lie above the base. */
  function AckedOffsets(base: nat, ids: seq<nat>): seq<nat> {
    if ids == [] then []
    else
      AckedOffsets(base, ids[..|ids| - 1]) +
      if base < ids[|ids| - 1] then [Offset16(ids[|ids| - 1], base)] else []
  }

  function Offsets16(ids: seq<nat>, base: nat): seq<nat>
    requires forall i :: 0 <= i < |ids| ==> base <= ids[i]
  {
    seq(|ids|, i requires 0 <= i < |ids| => Offset16(ids[i], base))
  }

  /** video_real_ack once its timer is due; the retry timers choose which losses are reported. */
  function MakeAck(r: Receiver, ackedId: nat, reported: seq<nat>, slow: bool): (Receiver, Ack)
    requires |r.ackeds| == ACK_NUM
    requires forall i :: 0 <= i < |reported| ==> reported[i] in UpdateBase(r).loss && reported[i] > UpdateBase(r).base
  {
    var s := UpdateBase(r);
    var count := if s.ackedCount >= ACK_NUM then ACK_NUM else s.ackedCount;
    var acked := if s.base < s.max then AckedOffsets(s.base, s.ackeds[..count]) else [];
    var giveUp := slow && |reported| > 0;
    var nacks := Offsets16(reported, s.base);
    (s.(loss := if giveUp then {} else s.loss, ackedCount := 0),
     Ack(s.base, ackedId, acked, if giveUp then [] else nacks))
  }

  // ---- sender ----

  datatype Sent = Sent(id: nat, timestamp: nat)

  /** held is the retransmission index ack_cache; stored is segs_cache in sending order. */
  datatype Sender = Sender(seed: nat, frameSeed: nat, base: nat, held: set<nat>, stored: seq<Sent>)

  const SILENT := Sender(0, 0, 0, {}, [])

  /** sim_sender_put: what the new frame's number and first packet id are. */
  function NextFrame(s: Sender, data: seq<byte>, timestamp: nat, ftype: nat): Frame {
    Frame(s.frameSeed + 1, s.seed + 1, timestamp, ftype, 0, data)
  }

  function PutFrame(s: Sender, f: Frame): Sender {
    var n := Total(|f.data|);
    Sender(s.seed + n, s.frameSeed + 1, s.base,
           s.held + Between(s.seed, s.seed + n + 1),
           s.stored + SentFrom(s.seed, n, f.timestamp))
  }

  function SentFrom(seed: nat, n: nat, timestamp: nat): seq<Sent> {
    if n == 0 then [] else SentFrom(seed, n - 1, timestamp) + [Sent(seed + n, timestamp)]
  }

  /** sim_sender_update_base: a larger base drops everything up to it. */
  function RaiseBase(s: Sender, base: nat): Sender {
    if base > s.base then s.(base := base, held := set i | i in s.held && i > base) else s
  }

  function Drop(held: set<nat>, base: nat, acked: seq<nat>): set<nat> {
    if acked == [] then held else Drop(held, base, acked[..|acked| - 1]) - {base + acked[|acked| - 1]}
  }

  /** Whether sim_sender_ack looks at an acknowledgement at all. */
  predicate Accepts(s: Sender, a: Ack) {
    a.ackedId <= s.seed && a.base <= s.seed
  }

  /** sim_sender_ack, as far as the caches go. */
  function OnAck(s: Sender, a: Ack): Sender {
    if !Accepts(s, a) then s
    else
      var t := RaiseBase(s, a.base);
      t.(held := Drop(t.held, a.base, a.acked))
  }

  /** The reported losses that are sent again: above the base, still held, and due by the age and resend timers. */
  function Resent(s: Sender, base: nat, nacks: seq<nat>, due: set<nat>): (ids: seq<nat>) {
    if nacks == [] then []
    else
      var id := base + nacks[|nacks| - 1];
      Resent(s, base, nacks[..|nacks| - 1], due) + if s.base < id && id in s.held && id in due then [id] else []
  }

  lemma {:induction false} ResentHas(s: Sender, base: nat, nacks: seq<nat>, due: set<nat>, i: nat)
    requires i < |nacks| && s.base < base + nacks[i] && base + nacks[i] in s.held && base + nacks[i] in due
    ensures base + nacks[i] in Resent(s, base, nacks, due)
    decreases |nacks|
  {
    if i < |nacks| - 1 { ResentHas(s, base, nacks[..|nacks| - 1], due, i); }
  }

  const MAX_CACHE_DELAY: nat := 6000

  /** How many of the oldest stored segments have reached their age limit; elapsed counts from the first frame. */
  function Expired(stored: seq<Sent>, elapsed: nat): (k: nat)
    ensures k <= |stored|
  {
    if stored == [] || stored[0].timestamp + MAX_CACHE_DELAY > elapsed then 0 else 1 + Expired(stored[1..], elapsed)
  }

  /** sim_sender_evict_cache. */
  function EvictOld(s: Sender, elapsed: nat): Sender {
    var k := Expired(s.stored, elapsed);
    s.(held := s.held - ExpiredIds(s.stored, elapsed), stored := s.stored[k..])
  }

  function ExpiredIds(stored: seq<Sent>, elapsed: nat): set<nat> {
    set i | 0 <= i < Expired(stored, elapsed) :: stored[i].id
  }
}

/** Runs of both ends over a network that may delay, reorder, repeat or lose every message. */
module RetransmissionRuns {
  import opened Wrappers
  import opened Segments
  import opened Reassembly
  import opened Fragmenter
  import opened Retransmission
  import Playback

  datatype System = System(
    sender: Sender, receiver: Receiver,
    /** Every frame put so far. */
    sent: map<nat, Frame>,
    /** Every acknowledgement and feedback base emitted so far; any of them may be delivered at any time. */
    acks: set<Ack>, bases: set<nat>,
    /** Ids that reached the receiver, and those its cache took. */
    arrived: set<nat>, taken: set<nat>,
    /** Ids that left the sender's index by age or because a key frame was requested. */
    dropped: set<nat>,
    /** Whether the receiver has ever given up its loss list to ask for a key frame. */
    cleared: bool)

  const START := System(SILENT, IDLE, map[], {}, {}, {}, {}, {}, false)

  datatype Action =
    | SendFrame(data: seq<byte>, timestamp: nat, ftype: nat)
    | Arrive(fid: nat, index: nat, slow: bool)
    | Acknowledge(ackedId: nat, reported: seq<nat>, slow: bool)
    | Feedback
    | AckArrives(ack: Ack)
    | BaseArrives(base: nat)
    | AgeOut(elapsed: nat)
    | KeyRequestArrives
    | Fetch(room: nat, playing: bool, late: bool, due: bool)

  /** Messages delivered were emitted before; frame numbers stay within the ring and ids within 16 bits of the base. */
  predicate Enabled(y: System, a: Action) {
    match a
    case Arrive(f, i, _) =>
      && f in y.sent && i < Total(|y.sent[f].data|)
      && (y.receiver.cache.maxFid > 0 ==> f <= y.receiver.cache.minFid + CACHE_SIZE)
    case Acknowledge(_, reported, _) =>
      var r := UpdateBase(y.receiver);
      && (forall i :: 0 <= i < |reported| ==> reported[i] in r.loss && reported[i] > r.base)
      && r.max < r.base + U16
    case AckArrives(m) => m in y.acks
    case BaseArrives(b) => b in y.bases
    case _ => true
  }

  function StepSend(y: System, data: seq<byte>, timestamp: nat, ftype: nat): System {
    var f := NextFrame(y.sender, data, timestamp, ftype);
    y.(sender := PutFrame(y.sender, f), sent := y.sent[f.fid := f])
  }

  function StepArrive(y: System, g: Segment, slow: bool): System {
    if !(CacheOk(y.receiver.cache) && CanPut(y.receiver.cache, g) && |y.receiver.ackeds| == ACK_NUM) then y
    else
      var (r, ok) := Receive(y.receiver, g, slow);
      y.(receiver := r,
         arrived := y.arrived + {g.packetId},
         taken := if ok then y.taken + {g.packetId} else y.taken,
         cleared := y.cleared || (!Ignores(y.receiver, g) && AsksKeyFrame(Seat(y.receiver, g), g, slow)))
  }

  function StepAcknowledge(y: System, ackedId: nat, reported: seq<nat>, slow: bool): System
    requires Enabled(y, Acknowledge(ackedId, reported, slow))
  {
    if |y.receiver.ackeds| != ACK_NUM then y
    else
      var (r, m) := MakeAck(y.receiver, ackedId, reported, slow);
      y.(receiver := r, acks := y.acks + {m}, cleared := y.cleared || (slow && |reported| > 0))
  }

  function StepFetch(y: System, room: nat, playing: bool, late: bool, due: bool): System {
    if !CacheOk(y.receiver.cache) then y
    else y.(receiver := y.receiver.(cache := Get(y.receiver.cache, room, playing, late, due).0))
  }

  function Step(y: System, a: Action): System
    requires Enabled(y, a)
  {
    match a
    case SendFrame(data, timestamp, ftype) => StepSend(y, data, timestamp, ftype)
    case Arrive(f, i, slow) => StepArrive(y, SegmentOf(y.sent[f], i), slow)
    case Acknowledge(ackedId, reported, slow) => StepAcknowledge(y, ackedId, reported, slow)
    case Feedback => y.(bases := y.bases + {y.receiver.base})
    case AckArrives(m) => y.(sender := OnAck(y.sender, m))
    case BaseArrives(b) => y.(sender := RaiseBase(y.sender, b))
    case AgeOut(elapsed) =>
      y.(sender := EvictOld(y.sender, elapsed), dropped := y.dropped + ExpiredIds(y.sender.stored, elapsed))
    case KeyRequestArrives => y.(sender := y.sender.(held := {}), dropped := y.dropped + y.sender.held)
    case Fetch(room, playing, late, due) => StepFetch(y, room, playing, late, due)
  }

  // ---- the invariant, in parts ----

  /** The id after the last packet of a frame. */
  function EndId(f: Frame): nat {
    f.firstId + Total(|f.data|)
  }

  predicate FrameAt(y: System, f: nat) {
    f in y.sent ==> y.sent[f].fid == f && 1 <= y.sent[f].firstId && EndId(y.sent[f]) <= y.sender.seed + 1
  }

  predicate FramesApart(y: System, f: nat, g: nat) {
    f in y.sent && g in y.sent && f < g ==> EndId(y.sent[f]) <= y.sent[g].firstId
  }

  /** Frames are numbered from 1 and use disjoint, increasing id ranges. */
  ghost predicate SentOk(y: System) {
    && (forall f :: f in y.sent <==> 1 <= f <= y.sender.frameSeed)
    && (forall f :: FrameAt(y, f))
    && (forall f, g :: FramesApart(y, f, g))
  }

  /** Every issued id is still held, or left the index for a reason that makes it safe to forget. */
  predicate Accounted(y: System, id: nat) {
    1 <= id <= y.sender.seed ==>
      id in y.sender.held || id in y.dropped || id in y.taken || id <= y.sender.base
  }

  predicate AckOk(y: System, m: Ack) {
    m.base <= y.receiver.base && forall i :: 0 <= i < |m.acked| ==> m.base + m.acked[i] in y.taken
  }

  ghost predicate SenderOk(y: System) {
    && (forall id :: Accounted(y, id))
    && y.sender.base <= y.receiver.base
    && (forall b :: b in y.bases ==> b <= y.receiver.base)
    && (forall m :: m in y.acks ==> AckOk(y, m))
  }

  /** The loss list lies between base and newest id and names nothing that was taken. */
  predicate LossOk(y: System) {
    var r := y.receiver;
    && r.base <= r.max <= y.sender.seed
    && (forall id :: id in r.loss ==> r.base < id <= r.max && id !in y.taken)
    && (forall id :: id in y.taken ==> 1 <= id <= r.max && id in y.arrived)
    && |r.ackeds| == ACK_NUM
    && (forall i :: 0 <= i < ACK_NUM ==> r.ackeds[i] == 0 || r.ackeds[i] in y.taken)
  }

  /** Nothing above the base went missing unnoticed. */
  predicate Noticed(y: System, id: nat) {
    y.receiver.base < id <= y.receiver.max && id !in y.receiver.loss ==> id in y.arrived
  }

  ghost predicate NoticeOk(y: System) {
    !y.cleared ==> forall id :: Noticed(y, id)
  }

  predicate Holds(y: System, s: Slot) {
    && s.fid in y.sent
    && s.segNumber == |s.segments| == Total(|y.sent[s.fid].data|)
    && forall i :: 0 <= i < |s.segments| && s.segments[i].Some? ==>
         s.segments[i] == Some(SegmentOf(y.sent[s.fid], i)) && s.segments[i].value.packetId in y.taken
  }

  /** The reassembly ring holds only taken segments, and its bounds lag behind the newest id. */
  predicate CacheInv(y: System, c: Cache, max: nat) {
    && CacheOk(c)
    && (forall f :: f in c.frames ==> Holds(y, c.frames[f]))
    && c.minSeq <= max
    && (c.maxFid > 0 ==> c.maxFid in y.sent && y.sent[c.maxFid].firstId <= max)
    && (c.minFid == c.maxFid > 0 ==> EndId(y.sent[c.maxFid]) <= max + 1)
  }

  ghost predicate Inv(y: System) {
    SentOk(y) && SenderOk(y) && LossOk(y) && NoticeOk(y) && CacheInv(y, y.receiver.cache, y.receiver.max)
  }

  // ---- sender actions ----

  lemma HoldsStays(y: System, z: System, s: Slot)
    requires Holds(y, s) && y.taken <= z.taken && s.fid in z.sent && z.sent[s.fid] == y.sent[s.fid]
    ensures Holds(z, s)
  {
  }

  /** z has all frames y sent, and forgets nothing that accounts for an id. */
  predicate Follows(y: System, z: System) {
    && z.sent == y.sent && z.sender.seed == y.sender.seed && z.sender.frameSeed == y.sender.frameSeed
    && y.taken <= z.taken && y.dropped <= z.dropped
    && y.sender.base <= z.sender.base && y.receiver.base <= z.receiver.base
    && forall id :: id in y.sender.held ==>
         id in z.sender.held || id in z.dropped || id in z.taken || id <= z.sender.base
  }

  lemma CacheCarries(y: System, z: System, c: Cache, max: nat)
    requires CacheInv(y, c, max) && z.sent == y.sent && y.taken <= z.taken
    ensures CacheInv(z, c, max)
  {
    forall f | f in c.frames ensures Holds(z, c.frames[f]) { HoldsStays(y, z, c.frames[f]); }
  }

  /** The frame of all actions but sending: what a following state keeps of the invariant. */
  lemma Carries(y: System, z: System)
    requires Inv(y) && Follows(y, z)
    ensures SentOk(z) && CacheInv(z, y.receiver.cache, y.receiver.max)
    ensures (forall id :: Accounted(z, id)) && (forall m :: m in y.acks ==> AckOk(z, m))
  {
    forall f ensures FrameAt(z, f) { assert FrameAt(y, f); }
    forall f, g ensures FramesApart(z, f, g) { assert FramesApart(y, f, g); }
    forall id ensures Accounted(z, id) { assert Accounted(y, id); }
    forall m | m in y.acks ensures AckOk(z, m) { assert AckOk(y, m); }
    CacheCarries(y, z, y.receiver.cache, y.receiver.max);
  }

  lemma SendKeeps(y: System, data: seq<byte>, timestamp: nat, ftype: nat)
    requires Inv(y)
    ensures Inv(StepSend(y, data, timestamp, ftype))
  {
    var z := StepSend(y, data, timestamp, ftype);
    forall f ensures FrameAt(z, f) { assert FrameAt(y, f); }
    forall f, g ensures FramesApart(z, f, g) { assert FramesApart(y, f, g) && FrameAt(y, f); }
    forall id ensures Accounted(z, id) { assert Accounted(y, id); }
    forall id | !z.cleared ensures Noticed(z, id) { assert Noticed(y, id); }
    forall f | f in z.receiver.cache.frames ensures Holds(z, z.receiver.cache.frames[f]) {
      HoldsStays(y, z, y.receiver.cache.frames[f]);
    }
  }

  /** An action of the sender side that only moves ids from held to dropped, to the base, or to taken. */
  lemma SenderActionKeeps(y: System, s: Sender, dropped: set<nat>)
    requires Inv(y)
    requires s.seed == y.sender.seed && s.frameSeed == y.sender.frameSeed
    requires y.sender.base <= s.base <= y.receiver.base
    requires y.dropped <= dropped
    requires forall id :: id in y.sender.held ==> id in s.held || id in dropped || id in y.taken || id <= s.base
    ensures Inv(y.(sender := s, dropped := dropped))
  {
    var z := y.(sender := s, dropped := dropped);
    Carries(y, z);
    forall id | !z.cleared ensures Noticed(z, id) { assert Noticed(y, id); }
  }

  lemma {:induction false} DropIs(held: set<nat>, base: nat, acked: seq<nat>, id: nat)
    ensures id in Drop(held, base, acked) <==> id in held && forall i :: 0 <= i < |acked| ==> id != base + acked[i]
  {
    if acked != [] {
      var t := acked[..|acked| - 1];
      DropIs(held, base, t, id);
      assert forall i :: 0 <= i < |t| ==> t[i] == acked[i];
    }
  }

  lemma AckArrivesKeeps(y: System, m: Ack)
    requires Inv(y) && m in y.acks
    ensures Inv(y.(sender := OnAck(y.sender, m)))
  {
    assert AckOk(y, m);
    forall id | id in y.sender.held
      ensures id in OnAck(y.sender, m).held || id in y.taken || id <= OnAck(y.sender, m).base
    {
      DropIs(RaiseBase(y.sender, m.base).held, m.base, m.acked, id);
    }
    SenderActionKeeps(y, OnAck(y.sender, m), y.dropped);
  }

  // ---- receiver actions ----

  /** An action of the receiver side that only raises the base and trims the loss list. */
  lemma ReceiverActionKeeps(y: System, r: Receiver, cleared: bool)
    requires Inv(y)
    requires r.max == y.receiver.max && y.receiver.base <= r.base <= r.max
    requires r.ackeds == y.receiver.ackeds && CacheInv(y, r.cache, r.max)
    requires forall id :: id in r.loss ==> id in y.receiver.loss && r.base < id
    requires y.cleared ==> cleared
    requires !cleared ==> forall id :: id in y.receiver.loss && id > r.base ==> id in r.loss
    ensures Inv(y.(receiver := r, cleared := cleared))
  {
    var z := y.(receiver := r, cleared := cleared);
    Carries(y, z);
    CacheCarries(y, z, r.cache, r.max);
    forall id | !z.cleared ensures Noticed(z, id) { assert Noticed(y, id); }
  }

  lemma UpdateBaseMoves(y: System)
    requires Inv(y)
    ensures var r := UpdateBase(y.receiver);
      && y.receiver.base <= r.base <= r.max
      && (forall id :: id in r.loss ==> id in y.receiver.loss && r.base < id)
      && (forall id :: id in y.receiver.loss && id > r.base ==> id in r.loss)
  {
  }

  lemma {:induction false} AckedOffsetsTaken(y: System, base: nat, ids: seq<nat>)
    requires forall i :: 0 <= i < |ids| ==> ids[i] == 0 || ids[i] in y.taken
    requires forall id :: id in y.taken ==> id < base + U16
    ensures forall i :: 0 <= i < |AckedOffsets(base, ids)| ==> base + AckedOffsets(base, ids)[i] in y.taken
    decreases |ids|
  {
    if ids != [] {
      var last := ids[|ids| - 1];
      AckedOffsetsTaken(y, base, ids[..|ids| - 1]);
      if base < last { OffsetIsExact(last, base); }
    }
  }

  lemma AcknowledgeKeeps(y: System, ackedId: nat, reported: seq<nat>, slow: bool)
    requires Inv(y) && Enabled(y, Acknowledge(ackedId, reported, slow))
    ensures Inv(StepAcknowledge(y, ackedId, reported, slow))
  {
    var (r, m) := MakeAck(y.receiver, ackedId, reported, slow);
    UpdateBaseMoves(y);
    var z := y.(receiver := r, cleared := y.cleared || (slow && |reported| > 0));
    ReceiverActionKeeps(y, r, z.cleared);
    MadeAckOk(y, ackedId, reported, slow);
    MessageKeeps(z, {m}, {});
    assert z.bases + {} == z.bases;
  }

  lemma MadeAckOk(y: System, ackedId: nat, reported: seq<nat>, slow: bool)
    requires LossOk(y) && Enabled(y, Acknowledge(ackedId, reported, slow))
    ensures var (r, m) := MakeAck(y.receiver, ackedId, reported, slow); AckOk(y.(receiver := r), m)
  {
    var s := UpdateBase(y.receiver);
    var ids := s.ackeds[..if s.ackedCount >= ACK_NUM then ACK_NUM else s.ackedCount];
    assert forall i :: 0 <= i < |ids| ==> ids[i] == y.receiver.ackeds[i];
    AckedOffsetsTaken(y, s.base, ids);
  }

  lemma MessageKeeps(y: System, acks: set<Ack>, bases: set<nat>)
    requires Inv(y) && (forall m :: m in acks ==> AckOk(y, m)) && forall b :: b in bases ==> b <= y.receiver.base
    ensures Inv(y.(acks := y.acks + acks, bases := y.bases + bases))
  {
    var z := y.(acks := y.acks + acks, bases := y.bases + bases);
    Carries(y, z);
    forall id | !z.cleared ensures Noticed(z, id) { assert Noticed(y, id); }
  }

  // ---- the ring ----

  lemma TrimKeeps(y: System, c: Cache, d: Cache, max: nat)
    requires SentOk(y) && CacheInv(y, c, max) && Trimmed(c, d)
    ensures CacheInv(y, d, max)
  {
    if d.minSeq != c.minSeq {
      var f :| f in c.frames && f <= d.minFid && d.minSeq == LastId(c.frames[f].segments);
      assert Holds(y, c.frames[f]);
      Playback.LastIdIs(y.sent[f], c.frames[f].segments);
      assert FramesApart(y, f, c.maxFid);
    }
  }

  lemma ServeKeeps(y: System, c: Cache, max: nat, room: nat, due: bool)
    requires SentOk(y) && CacheInv(y, c, max) && forall id :: id in y.taken ==> id <= max
    ensures CacheInv(y, Serve(c, room, due).0, max)
  {
    if Ready(c, due) {
      var f := c.minFid + 1;
      var s := c.frames[f];
      FullMeansAllPresent(s);
      assert Holds(y, s);
      Playback.LastIdIs(y.sent[f], s.segments);
      assert s.segments[|s.segments| - 1].Some?;
    }
  }

  lemma FetchKeeps(y: System, room: nat, playing: bool, late: bool, due: bool)
    requires Inv(y)
    ensures Inv(StepFetch(y, room, playing, late, due))
  {
    var r := y.receiver;
    EvictGopOk(r.cache);
    TrimKeeps(y, r.cache, Trim(r.cache, late), r.max);
    ServeKeeps(y, Trim(r.cache, late), r.max, room, due);
    ReceiverActionKeeps(y, r.(cache := Get(r.cache, room, playing, late, due).0), y.cleared);
  }

  /** g is segment i of the sent frame f. */
  ghost predicate IsPart(y: System, g: Segment, f: nat, i: nat) {
    && f in y.sent && i < Total(|y.sent[f].data|) && g == SegmentOf(y.sent[f], i)
    && g.fid == f && g.index == i && g.total == Total(|y.sent[f].data|) && g.packetId == y.sent[f].firstId + i
  }

  lemma PartIs(y: System, f: nat, i: nat)
    requires SentOk(y) && f in y.sent && i < Total(|y.sent[f].data|)
    ensures IsPart(y, SegmentOf(y.sent[f], i), f, i)
  {
    assert FrameAt(y, f);
  }

  /** A segment the cache refuses carries no news: its id is not beyond the newest one. */
  lemma RefusedIsOld(y: System, c: Cache, max: nat, g: Segment, f: nat, i: nat)
    requires SentOk(y) && CacheInv(y, c, max) && (forall id :: id in y.taken ==> id <= max)
    requires IsPart(y, g, f, i) && CanPut(c, g) && !Put(c, g).1
    ensures g.packetId <= max
  {
    if f <= c.minFid {
      assert FramesApart(y, f, c.maxFid);
    } else {
      AdvanceOk(c, f);
      assert At(Advance(c, f), f).Some?;
      assert Holds(y, c.frames[f]);
    }
  }

  lemma StoreHolds(y: System, z: System, o: Option<Slot>, g: Segment, f: nat, i: nat)
    requires IsPart(y, g, f, i) && z.sent == y.sent && y.taken <= z.taken
    requires o.Some? ==> o.value.fid == f && Holds(y, o.value)
    requires Store(o, g).1 ==> g.packetId in z.taken
    ensures Holds(z, Store(o, g).0)
  {
  }

  lemma PutKeeps(y: System, z: System, c: Cache, max: nat, g: Segment, f: nat, i: nat)
    requires SentOk(y) && CacheInv(y, c, max)
    requires IsPart(y, g, f, i) && CanPut(c, g)
    requires z.sent == y.sent && y.taken <= z.taken
    requires Put(c, g).1 ==> g.packetId in z.taken
    ensures CacheInv(z, Put(c, g).0, if Put(c, g).1 then Max(max, g.packetId) else max)
  {
    PutOk(c, g);
    if f > c.minFid {
      AdvanceOk(c, f);
      var a := Advance(c, f);
      if c.maxFid > 0 { TrimKeeps(y, c, a.(maxFid := c.maxFid), max); }
      StoreHolds(y, z, At(a, f), g, f, i);
      PutFramesHold(y, z, c, a, g, f);
    } else {
      CacheCarries(y, z, c, max);
    }
  }

  lemma PutFramesHold(y: System, z: System, c: Cache, a: Cache, g: Segment, f: nat)
    requires g.index < g.total && (At(a, f).Some? ==> |a.frames[f].segments| == g.total)
    requires forall k :: k in c.frames ==> Holds(y, c.frames[k]) && c.frames[k].fid == k
    requires forall k :: k in a.frames ==> k in c.frames && a.frames[k] == c.frames[k]
    requires Holds(z, Store(At(a, f), g).0) && z.sent == y.sent && y.taken <= z.taken
    ensures forall k :: k in a.frames || k == f ==> Holds(z, a.frames[f := Store(At(a, f), g).0][k])
  {
  }

  // ---- an arriving segment ----

  lemma ArrivedKeeps(y: System, id: nat)
    requires Inv(y)
    ensures Inv(y.(arrived := y.arrived + {id}))
  {
    var z := y.(arrived := y.arrived + {id});
    Carries(y, z);
    forall id | !z.cleared ensures Noticed(z, id) { assert Noticed(y, id); }
  }

  /** Seating the numbering on the first key frame. */
  lemma SeatKeeps(y: System, g: Segment, f: nat, i: nat)
    requires Inv(y) && IsPart(y, g, f, i) && !Ignores(y.receiver, g)
    ensures var s := Seat(y.receiver, g);
      Inv(y.(receiver := s)) && y.receiver.base <= s.base < g.packetId && s.cache == y.receiver.cache
  {
    var s := Seat(y.receiver, g);
    var z := y.(receiver := s);
    assert FrameAt(y, f);
    if y.receiver.max == 0 {
      assert FrameAt(y, y.receiver.cache.maxFid);
      assert y.receiver.cache.maxFid == 0;
    }
    Carries(y, z);
    forall id | !z.cleared ensures Noticed(z, id) { assert Noticed(y, id); }
  }

  /** What the receiver does with a segment once the numbering is seated. */
  function Accept(y: System, g: Segment, slow: bool): System
    requires CacheOk(y.receiver.cache) && CanPut(y.receiver.cache, g) && |y.receiver.ackeds| == ACK_NUM
  {
    var t := y.receiver.(loss := UpdateLoss(y.receiver, g, slow));
    var (c, ok) := Put(t.cache, g);
    var z := y.(arrived := y.arrived + {g.packetId}, cleared := y.cleared || AsksKeyFrame(y.receiver, g, slow));
    if !ok then z.(receiver := t.(cache := c))
    else z.(receiver := Recorded(t.(cache := c), g), taken := y.taken + {g.packetId})
  }

  lemma AcceptKeeps(y: System, g: Segment, f: nat, i: nat, slow: bool)
    requires Inv(y) && IsPart(y, g, f, i) && CanPut(y.receiver.cache, g) && y.receiver.base < g.packetId
    ensures Inv(Accept(y, g, slow))
  {
    var z := Accept(y, g, slow);
    var r := y.receiver;
    assert FrameAt(y, f);
    if !Put(r.cache, g).1 { RefusedIsOld(y, r.cache, r.max, g, f, i); }
    PutKeeps(y, z, r.cache, r.max, g, f, i);
    AcceptLoss(y, g, slow);
    Carries(y, z);
  }

  lemma AcceptLoss(y: System, g: Segment, slow: bool)
    requires LossOk(y) && NoticeOk(y) && CacheOk(y.receiver.cache) && CanPut(y.receiver.cache, g)
    requires y.receiver.base < g.packetId <= y.sender.seed
    requires Put(y.receiver.cache, g).1 || g.packetId <= y.receiver.max
    ensures LossOk(Accept(y, g, slow)) && NoticeOk(Accept(y, g, slow))
  {
    var z := Accept(y, g, slow);
    forall id | !z.cleared ensures Noticed(z, id) { assert Noticed(y, id); }
  }

  lemma CanPutPart(y: System, g: Segment, f: nat, i: nat)
    requires Inv(y) && IsPart(y, g, f, i)
    requires y.receiver.cache.maxFid > 0 ==> f <= y.receiver.cache.minFid + CACHE_SIZE
    ensures CanPut(y.receiver.cache, g)
  {
  }

  lemma StepArriveIs(y: System, g: Segment, slow: bool)
    requires CacheOk(y.receiver.cache) && CanPut(y.receiver.cache, g) && |y.receiver.ackeds| == ACK_NUM
    ensures StepArrive(y, g, slow) ==
            if Ignores(y.receiver, g) then y.(arrived := y.arrived + {g.packetId})
            else Accept(y.(receiver := Seat(y.receiver, g)), g, slow)
  {
  }

  lemma ArriveKeeps(y: System, f: nat, i: nat, slow: bool)
    requires Inv(y) && Enabled(y, Arrive(f, i, slow))
    ensures Inv(Step(y, Arrive(f, i, slow)))
    ensures y.receiver.base <= Step(y, Arrive(f, i, slow)).receiver.base
  {
    var g := SegmentOf(y.sent[f], i);
    PartIs(y, f, i);
    CanPutPart(y, g, f, i);
    StepArriveIs(y, g, slow);
    if Ignores(y.receiver, g) {
      ArrivedKeeps(y, g.packetId);
    } else {
      SeatKeeps(y, g, f, i);
      AcceptKeeps(y.(receiver := Seat(y.receiver, g)), g, f, i, slow);
    }
  }

  // ---- runs ----

  lemma StepRaisesBase(y: System, a: Action)
    requires Inv(y) && Enabled(y, a)
    ensures y.receiver.base <= Step(y, a).receiver.base
  {
    if a.Arrive? {
      ArriveKeeps(y, a.fid, a.index, a.slow);
    } else if a.Acknowledge? {
      UpdateBaseMoves(y);
    }
  }

  lemma StepKeeps(y: System, a: Action)
    requires Inv(y) && Enabled(y, a)
    ensures Inv(Step(y, a))
  {
    match a
    case SendFrame(data, timestamp, ftype) => SendKeeps(y, data, timestamp, ftype);
    case Arrive(f, i, slow) => ArriveKeeps(y, f, i, slow);
    case Acknowledge(ackedId, reported, slow) => AcknowledgeKeeps(y, ackedId, reported, slow);
    case Feedback =>
      MessageKeeps(y, {}, {y.receiver.base});
      assert y.acks + {} == y.acks;
    case AckArrives(m) => AckArrivesKeeps(y, m);
    case BaseArrives(b) => SenderActionKeeps(y, RaiseBase(y.sender, b), y.dropped);
    case AgeOut(elapsed) => AgeOutKeeps(y, elapsed);
    case KeyRequestArrives => SenderActionKeeps(y, y.sender.(held := {}), y.dropped + y.sender.held);
    case Fetch(room, playing, late, due) => FetchKeeps(y, room, playing, late, due);
  }

  lemma AgeOutKeeps(y: System, elapsed: nat)
    requires Inv(y)
    ensures Inv(Step(y, AgeOut(elapsed)))
  {
    SenderActionKeeps(y, EvictOld(y.sender, elapsed), y.dropped + ExpiredIds(y.sender.stored, elapsed));
  }

  predicate Feasible(y: System, actions: seq<Action>)
    decreases |actions|
  {
    actions == [] || (Enabled(y, actions[0]) && Feasible(Step(y, actions[0]), actions[1..]))
  }

  function Run(y: System, actions: seq<Action>): System
    requires Feasible(y, actions)
    decreases |actions|
  {
    if actions == [] then y else Run(Step(y, actions[0]), actions[1..])
  }

  lemma {:induction false} RunKeeps(y: System, actions: seq<Action>)
    requires Inv(y) && Feasible(y, actions)
    ensures Inv(Run(y, actions))
    ensures y.receiver.base <= Run(y, actions).receiver.base
    decreases |actions|
  {
    if actions != [] {
      StepKeeps(y, actions[0]);
      StepRaisesBase(y, actions[0]);
      RunKeeps(Step(y, actions[0]), actions[1..]);
    }
  }

  lemma StartOk()
    ensures Inv(START)
  {
  }

  /** Whatever the network does, a lost packet can still be resent unless it aged out or a key frame was requested. */
  lemma LostIsStillHeld(actions: seq<Action>, id: nat)
    requires Feasible(START, actions) && id in Run(START, actions).receiver.loss
    ensures var y := Run(START, actions); 1 <= id <= y.sender.seed && (id in y.sender.held || id in y.dropped)
  {
    StartOk();
    RunKeeps(START, actions);
    assert Accounted(Run(START, actions), id);
  }

  /** A reported loss that is still one is sent again as soon as the timers permit, unless the packet was dropped. */
  lemma ReportedLossIsResent(actions: seq<Action>, m: Ack, i: nat, due: set<nat>)
    requires Feasible(START, actions) && m in Run(START, actions).acks && i < |m.nacks|
    requires var y := Run(START, actions); var id := m.base + m.nacks[i];
      id in y.receiver.loss && id !in y.dropped && id in due && Accepts(y.sender, m)
    ensures m.base + m.nacks[i] in Resent(OnAck(Run(START, actions).sender, m), m.base, m.nacks, due)
  {
    StartOk();
    RunKeeps(START, actions);
    var y := Run(START, actions);
    var z := Step(y, AckArrives(m));
    StepKeeps(y, AckArrives(m));
    assert Accounted(z, m.base + m.nacks[i]);
    ResentHas(z.sender, m.base, m.nacks, due, i);
  }

  /** The acknowledged base never goes back. */
  lemma BaseNeverDecreases(first: seq<Action>, more: seq<Action>)
    requires Feasible(START, first) && Feasible(Run(START, first), more)
    ensures Run(START, first).receiver.base <= Run(Run(START, first), more).receiver.base
  {
    StartOk();
    RunKeeps(START, first);
    RunKeeps(Run(START, first), more);
  }

  /** Until a key frame is requested, every id above the base that is not listed as lost has arrived. */
  lemma UnlistedHasArrived(actions: seq<Action>, id: nat)
    requires Feasible(START, actions) && !Run(START, actions).cleared
    requires var r := Run(START, actions).receiver; r.base < id <= r.max && id !in r.loss
    ensures id in Run(START, actions).arrived
  {
    StartOk();
    RunKeeps(START, actions);
    assert Noticed(Run(START, actions), id);
  }

  /** Packets acknowledged by either end are never listed as lost, and the sender's base trails the receiver's. */
  lemma AcknowledgedIsNotLost(actions: seq<Action>)
    requires Feasible(START, actions)
    ensures var y := Run(START, actions);
      && y.sender.base <= y.receiver.base
      && (forall id :: id in y.receiver.loss ==> y.receiver.base < id <= y.receiver.max && id !in y.taken)
      && (forall m, i :: m in y.acks && 0 <= i < |m.acked| ==> m.base + m.acked[i] !in y.receiver.loss)
  {
    StartOk();
    RunKeeps(START, actions);
    var y := Run(START, actions);
    forall m, i | m in y.acks && 0 <= i < |m.acked| ensures m.base + m.acked[i] !in y.receiver.loss {
      assert AckOk(y, m);
    }
  }

  /** A 16-bit offset names the id it was made from exactly when the id is less than 65536 above the base. */
  lemma OffsetIsExact(id: nat, base: nat)
    requires base <= id
    ensures base + Offset16(id, base) == id <==> id < base + U16
  {
  }
}

/** The two ends as objects; each method does to the fields what Retransmission says. */
module RetransmissionEnds {
  import opened Wrappers
  import opened Segments
  import opened Reassembly
  import opened Fragmenter
  import opened Retransmission
  import opened FrameRings

  class SimReceiver {
    const cache: FrameRing
    var baseSeq: nat
    var maxSeq: nat
    var maxTs: nat
    var loss: set<nat>
    const ackeds: array<nat>
    var ackedCount: nat

    ghost predicate Valid()
      reads this, cache, cache.frames, ackeds
    {
      cache.Valid() && ackeds.Length == ACK_NUM
    }

    ghost function Abs(): Receiver
      requires cache.frames.Length == CACHE_SIZE
      reads this, cache, cache.frames, ackeds
    {
      Receiver(cache.Abs(), baseSeq, maxSeq, maxTs, loss, ackeds[..], ackedCount)
    }

    constructor ()
      ensures Valid() && Abs() == IDLE && fresh(cache) && fresh(cache.frames) && fresh(ackeds)
    {
      cache := new FrameRing();
      baseSeq, maxSeq, maxTs, loss, ackedCount := 0, 0, 0, {}, 0;
      ackeds := new nat[ACK_NUM](_ => 0);
      new;
      assert ackeds[..] == seq(ACK_NUM, _ => 0);
    }

    /** sim_receiver_update_loss. */
    method NoteLoss(g: Segment, slow: bool)
      requires Valid()
      modifies this`loss
      ensures loss == UpdateLoss(old(Abs()), g, slow)
    {
      loss := loss - {g.packetId};
      if maxTs + 3000 < g.timestamp {
        loss := {};
      } else if slow {
        loss := {};
      } else {
        ghost var rest := loss;
        var i := maxSeq + 1;
        while i < g.packetId
          invariant maxSeq < i && (i <= g.packetId || i == maxSeq + 1)
          invariant loss == rest + Between(maxSeq, i)
        {
          if i !in loss {
            loss := loss + {i};
          }
          i := i + 1;
        }
        assert Between(maxSeq, i) == Between(maxSeq, g.packetId);
      }
    }

    /** sim_receiver_internal_put on an active receiver. */
    method InternalPut(g: Segment, slow: bool) returns (ok: bool)
      requires Valid() && CanPut(cache.Abs(), g)
      modifies this, cache, cache.frames, ackeds
      ensures Valid() && (Abs(), ok) == Receive(old(Abs()), g, slow)
    {
      if maxSeq == 0 && g.ftype == 0 {
        return false;
      }
      if g.packetId <= baseSeq {
        return false;
      }
      TakeSeat(g);
      NoteLoss(g, slow);
      ok := cache.PutSegment(g);
      if ok {
        Record(g);
      }
    }

    method TakeSeat(g: Segment)
      requires Valid()
      modifies this`maxSeq, this`baseSeq, this`maxTs
      ensures Abs() == Seat(old(Abs()), g)
    {
      if maxSeq == 0 && g.packetId > g.index {
        maxSeq := g.packetId - g.index - 1;
        baseSeq := g.packetId - g.index - 1;
        maxTs := g.timestamp;
      }
    }

    /** The bookkeeping for a segment that the cache took. */
    method Record(g: Segment)
      requires Valid()
      modifies this`maxSeq, this`maxTs, this`ackedCount, ackeds
      ensures Abs() == Recorded(old(Abs()), g)
    {
      maxSeq := if maxSeq > g.packetId then maxSeq else g.packetId;
      maxTs := if maxTs > g.timestamp then maxTs else g.timestamp;
      ackeds[ackedCount % ACK_NUM] := g.packetId;
      ackedCount := (ackedCount + 1) % 256;
    }

    /** video_real_update_base. */
    method Rebase()
      requires Valid()
      modifies this`loss, this`baseSeq
      ensures Abs() == UpdateBase(old(Abs()))
    {
      var key := baseSeq + 1;
      while key <= cache.minSeq
        modifies this`loss
        invariant baseSeq < key && (key <= cache.minSeq + 1 || key == baseSeq + 1)
        invariant loss == set i | i in old(loss) && !(baseSeq < i < key)
      {
        loss := loss - {key};
        key := key + 1;
      }
      assert loss == UpdateBase(old(Abs())).loss;
      if |loss| == 0 {
        baseSeq := maxSeq;
      } else {
        var first := SetMin(loss);
        baseSeq := if first > 0 then first - 1 else baseSeq;
      }
    }

    /** video_real_ack with its timer due, and sim_receiver_send_ack. */
    method SendAck(ackedId: nat, reported: seq<nat>, slow: bool) returns (ack: Ack)
      requires Valid()
      requires forall i :: 0 <= i < |reported| ==>
        reported[i] in UpdateBase(Abs()).loss && reported[i] > UpdateBase(Abs()).base
      modifies this
      ensures Valid() && (Abs(), ack) == MakeAck(old(Abs()), ackedId, reported, slow)
    {
      ghost var r := Abs();
      Rebase();
      var nacks := [];
      for i := 0 to |reported|
        invariant |nacks| == i && forall j :: 0 <= j < i ==> nacks[j] == Offset16(reported[j], baseSeq)
      {
        nacks := nacks + [Offset16(reported[i], baseSeq)];
      }
      assert nacks == Offsets16(reported, baseSeq);
      if slow && |nacks| > 0 {
        loss := {};
        nacks := [];
      }
      var acked := [];
      if baseSeq < maxSeq {
        var count := if ackedCount >= ACK_NUM then ACK_NUM else ackedCount;
        for i := 0 to count
          invariant acked == AckedOffsets(baseSeq, ackeds[..i])
        {
          assert ackeds[..i + 1][..i] == ackeds[..i];
          if baseSeq < ackeds[i] {
            acked := acked + [Offset16(ackeds[i], baseSeq)];
          }
        }
        assert ackeds[..count] == ackeds[..][..count];
      }
      ackedCount := 0;
      ack := Ack(baseSeq, ackedId, acked, nacks);
    }
  }

  class SimSender {
    var packetIdSeed: nat
    var frameIdSeed: nat
    var basePacketId: nat
    var ackCache: set<nat>
    var segsCache: seq<Sent>
    const splitter: Splitter

    ghost function Abs(): Sender
      reads this
    {
      Sender(packetIdSeed, frameIdSeed, basePacketId, ackCache, segsCache)
    }

    constructor ()
      ensures Abs() == SILENT && fresh(splitter) && fresh(splitter.splits) && splitter.splits.Length > 0
    {
      packetIdSeed, frameIdSeed, basePacketId, ackCache, segsCache := 0, 0, 0, {}, [];
      splitter := new Splitter();
    }

    /** sim_sender_put: cuts the frame, numbers its segments and caches them. */
    method PutVideo(data: seq<byte>, timestamp: nat, ftype: nat) returns (segments: seq<Segment>)
      requires splitter.splits.Length > 0 && Pieces(|data|) < 0x1_0000_0000
      modifies this, splitter, splitter.splits
      ensures splitter.splits == old(splitter.splits) || fresh(splitter.splits)
      ensures var f := NextFrame(old(Abs()), data, timestamp, ftype);
        && Abs() == PutFrame(old(Abs()), f)
        && |segments| == Total(|data|)
        && forall i :: 0 <= i < |segments| ==> segments[i] == SegmentOf(f, i)
    {
      ghost var f := NextFrame(Abs(), data, timestamp, ftype);
      var total := splitter.Split(|data|);
      frameIdSeed := frameIdSeed + 1;
      segments := CacheSegments(data, timestamp, ftype, total, f);
    }

    /** The loop over the pieces of the frame. */
    method CacheSegments(data: seq<byte>, timestamp: nat, ftype: nat, total: nat, ghost f: Frame)
        returns (segments: seq<Segment>)
      requires f == Frame(frameIdSeed, packetIdSeed + 1, timestamp, ftype, 0, data)
      requires total == Total(|data|) <= splitter.splits.Length
      requires forall i :: 0 <= i < total ==> splitter.splits[i] == PieceSize(|data|, i)
      modifies this`packetIdSeed, this`ackCache, this`segsCache
      ensures |segments| == total && forall j :: 0 <= j < total ==> segments[j] == SegmentOf(f, j)
      ensures packetIdSeed == old(packetIdSeed) + total
      ensures ackCache == old(ackCache) + Between(old(packetIdSeed), packetIdSeed + 1)
      ensures segsCache == old(segsCache) + SentFrom(old(packetIdSeed), total, timestamp)
    {
      segments := [];
      var pos := 0;
      ghost var seed, held, stored := packetIdSeed, ackCache, segsCache;
      for i := 0 to total
        invariant |segments| == i && pos == Offset(|data|, i) && packetIdSeed == seed + i
        invariant forall j :: 0 <= j < i ==> segments[j] == SegmentOf(f, j)
        invariant ackCache == held + Between(seed, packetIdSeed + 1)
        invariant segsCache == stored + SentFrom(seed, i, timestamp)
      {
        PieceIs(f, i);
        var size := splitter.splits[i];
        var g := CacheSegment(timestamp, i, total, ftype, data[pos..pos + size]);
        assert segsCache == stored + SentFrom(seed, i + 1, timestamp);
        segments := segments + [g];
        pos := pos + size;
      }
    }

    /** The body of the loop: numbers a segment, and caches it for resending and as not acked. */
    method CacheSegment(timestamp: nat, index: nat, total: nat, ftype: nat, bytes: seq<byte>) returns (g: Segment)
      modifies this`packetIdSeed, this`ackCache, this`segsCache
      ensures packetIdSeed == old(packetIdSeed) + 1
      ensures g == Segment(packetIdSeed, frameIdSeed, timestamp, index, total, ftype, 0, bytes)
      ensures ackCache == old(ackCache) + {packetIdSeed}
      ensures segsCache == old(segsCache) + [Sent(packetIdSeed, timestamp)]
    {
      packetIdSeed := packetIdSeed + 1;
      g := Segment(packetIdSeed, frameIdSeed, timestamp, index, total, ftype, 0, bytes);
      segsCache := segsCache + [Sent(packetIdSeed, timestamp)];
      ackCache := ackCache + {packetIdSeed};
    }

    static lemma PieceIs(f: Frame, i: nat)
      requires i < Total(|f.data|)
      ensures var pos, size := Offset(|f.data|, i), PieceSize(|f.data|, i);
        && Offset(|f.data|, i + 1) == pos + size <= |f.data|
        && SegmentOf(f, i) == Segment(f.firstId + i, f.fid, f.timestamp, i, Total(|f.data|), f.ftype, f.payloadType,
                                      f.data[pos..pos + size])
    {
      CarriedIsPrefix(f, i + 1);
    }

    /** sim_sender_update_base. */
    method AdvanceBase(base: nat)
      modifies this`basePacketId, this`ackCache
      ensures Abs() == RaiseBase(old(Abs()), base)
    {
      if base > basePacketId {
        basePacketId := base;
        while |ackCache| > 0
          modifies this`ackCache
          invariant ackCache <= old(ackCache) && forall i :: i in old(ackCache) && i > base ==> i in ackCache
        {
          var first := SetMin(ackCache);
          if first <= basePacketId {
            ackCache := ackCache - {first};
          } else {
            break;
          }
        }
      }
    }

    /** sim_sender_ack without its estimate of the round trip; due are the ids its timers let be sent again. */
    method HandleAck(a: Ack, due: set<nat>) returns (ok: bool, resent: seq<nat>)
      modifies this`basePacketId, this`ackCache
      ensures Abs() == OnAck(old(Abs()), a) && ok == Accepts(old(Abs()), a)
      ensures resent == if ok then Resent(Abs(), a.base, a.nacks, due) else []
    {
      if a.ackedId > packetIdSeed || a.base > packetIdSeed {
        return false, [];
      }
      TakeAcked(a);
      resent := [];
      for i := 0 to |a.nacks|
        invariant resent == Resent(Abs(), a.base, a.nacks[..i], due)
      {
        assert a.nacks[..i + 1][..i] == a.nacks[..i];
        var id := a.base + a.nacks[i];
        if basePacketId < id && id in ackCache && id in due {
          resent := resent + [id];
        }
      }
      assert a.nacks[..|a.nacks|] == a.nacks;
      ok := true;
    }

    /** The cache updates of an acknowledgement that is accepted. */
    method TakeAcked(a: Ack)
      requires Accepts(Abs(), a)
      modifies this`basePacketId, this`ackCache
      ensures Abs() == OnAck(old(Abs()), a)
    {
      AdvanceBase(a.base);
      ghost var held := ackCache;
      for i := 0 to |a.acked|
        modifies this`ackCache
        invariant ackCache == Drop(held, a.base, a.acked[..i])
      {
        assert a.acked[..i + 1][..i] == a.acked[..i];
        ackCache := ackCache - {a.base + a.acked[i]};
      }
      assert a.acked[..|a.acked|] == a.acked;
    }

    /** The video part of sim_sender_evict_cache. */
    method EvictCache(elapsed: nat)
      modifies this`ackCache, this`segsCache
      ensures Abs() == EvictOld(old(Abs()), elapsed)
    {
      ghost var k := 0;
      ghost var stored := segsCache;
      while |segsCache| > 0
        invariant k <= |stored| && segsCache == stored[k..]
        invariant Expired(stored, elapsed) == k + Expired(stored[k..], elapsed)
        invariant ackCache == old(ackCache) - set i | 0 <= i < k :: stored[i].id
        decreases |segsCache|
      {
        var first := segsCache[0];
        if first.timestamp + MAX_CACHE_DELAY <= elapsed {
          ackCache := ackCache - {first.id};
          segsCache := segsCache[1..];
          k := k + 1;
        } else {
          break;
        }
      }
    }
  }
}
