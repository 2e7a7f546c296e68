// What acknowledgements achieve in every run of the retransmission protocol
// (ReCapABR/sim_transport/sim_receiver.c and sim_sender.c).

/** How far the receiver's base moves, what its messages carry, and what their delivery releases. */
module AcknowledgementRuns {
  import opened Wrappers
  import opened Segments
  import opened Reassembly
  import opened Fragmenter
  import opened Retransmission
  import opened RetransmissionRuns

  lemma Reachable(actions: seq<Action>)
    requires Feasible(START, actions)
    ensures Inv(Run(START, actions))
  {
    StartOk();
    RunKeeps(START, actions);
  }

  // ---- the base and the losses ----

  /** The listed losses that the reassembly ring still waits for. */
  function Open(r: Receiver): set<nat> {
    set i | i in r.loss && i > r.cache.minSeq
  }

  /** The base is as large as it can be: just below the first open loss, or at the newest id without one. */
  predicate GreatestBase(r: Receiver, base: nat) {
    if Open(r) == {} then base == r.max
    else base + 1 in Open(r) && forall id :: id in Open(r) ==> base < id
  }

  /** The offsets of a message name these ids. */
  predicate Names(base: nat, offsets: seq<nat>, ids: seq<nat>) {
    |offsets| == |ids| && forall i :: 0 <= i < |ids| ==> base + offsets[i] == ids[i]
  }

  // ---- the ids received since the last acknowledgement ----

  /** The action delivers a segment that the receiver takes. */
  predicate Takes(y: System, a: Action)
    requires Enabled(y, a)
  {
    a.Arrive? && CacheOk(y.receiver.cache) && CanPut(y.receiver.cache, SegmentOf(y.sent[a.fid], a.index))
    && |y.receiver.ackeds| == ACK_NUM && Receive(y.receiver, SegmentOf(y.sent[a.fid], a.index), a.slow).1
  }

  /** The ids taken since the last acknowledgement was made. */
  function Recent(y: System, actions: seq<Action>, log: seq<nat>): seq<nat>
    requires Feasible(y, actions)
    decreases |actions|
  {
    if actions == [] then log
    else
      var a := actions[0];
      Recent(Step(y, a), actions[1..],
             if a.Acknowledge? then []
             else if Takes(y, a) then log + [SegmentOf(y.sent[a.fid], a.index).packetId]
             else log)
  }

  /** The buffer holds the last 20 of them, while the 8-bit count has not wrapped. */
  predicate Buffered(r: Receiver, log: seq<nat>) {
    |log| < 256 ==>
      && |r.ackeds| == ACK_NUM && r.ackedCount == |log|
      && forall j :: 0 <= j < |log| && j >= |log| - ACK_NUM ==> r.ackeds[j % ACK_NUM] == log[j]
  }

  lemma ResiduesDiffer(j: nat, n: nat)
    requires j < n < j + ACK_NUM
    ensures j % ACK_NUM != n % ACK_NUM
  {
    assert n - j == ACK_NUM * (n / ACK_NUM - j / ACK_NUM) + (n % ACK_NUM - j % ACK_NUM);
  }

  lemma RecordBuffers(r: Receiver, g: Segment, log: seq<nat>)
    requires |r.ackeds| == ACK_NUM && Buffered(r, log)
    ensures Buffered(Recorded(r, g), log + [g.packetId])
  {
    var n, s, more := |log|, Recorded(r, g), log + [g.packetId];
    if n + 1 < 256 {
      assert s.ackedCount == n + 1;
      forall j | 0 <= j < n + 1 && j >= n + 1 - ACK_NUM ensures s.ackeds[j % ACK_NUM] == more[j] {
        if j < n { ResiduesDiffer(j, n); }
      }
    }
  }

  lemma {:induction false} RunBuffers(y: System, actions: seq<Action>, log: seq<nat>)
    requires Inv(y) && Feasible(y, actions) && Buffered(y.receiver, log)
    ensures Buffered(Run(y, actions).receiver, Recent(y, actions, log))
    decreases |actions|
  {
    if actions != [] {
      var a := actions[0];
      StepKeeps(y, a);
      if Takes(y, a) {
        var g := SegmentOf(y.sent[a.fid], a.index);
        var s := Seat(y.receiver, g);
        var t := s.(loss := UpdateLoss(s, g, a.slow));
        RecordBuffers(t.(cache := Put(t.cache, g).0), g, log);
        RunBuffers(Step(y, a), actions[1..], log + [g.packetId]);
      } else {
        RunBuffers(Step(y, a), actions[1..], if a.Acknowledge? then [] else log);
      }
    }
  }

  lemma {:induction false} OffsetsHave(base: nat, ids: seq<nat>, i: nat)
    requires i < |ids| && base < ids[i]
    ensures Offset16(ids[i], base) in AckedOffsets(base, ids)
    decreases |ids|
  {
    if i < |ids| - 1 { OffsetsHave(base, ids[..|ids| - 1], i); }
  }

  /** The last 20 of these ids are covered by the message: its base reaches them, or it names them. */
  predicate Covers(m: Ack, log: seq<nat>) {
    |log| < 256 ==> forall j :: 0 <= j < |log| && j >= |log| - ACK_NUM ==> log[j] <= m.base || log[j] - m.base in m.acked
  }

  lemma MessageCovers(y: System, ackedId: nat, reported: seq<nat>, slow: bool, log: seq<nat>)
    requires Inv(y) && Enabled(y, Acknowledge(ackedId, reported, slow)) && Buffered(y.receiver, log)
    ensures Covers(MakeAck(y.receiver, ackedId, reported, slow).1, log)
  {
    if |log| < 256 {
      var r, m := y.receiver, MakeAck(y.receiver, ackedId, reported, slow).1;
      var count := if r.ackedCount >= ACK_NUM then ACK_NUM else r.ackedCount;
      forall j | 0 <= j < |log| && j >= |log| - ACK_NUM && log[j] > m.base ensures log[j] - m.base in m.acked {
        assert r.ackeds[j % ACK_NUM] == log[j];
        OffsetNamed(r, m.base, count, log, j);
      }
    }
  }

  lemma OffsetNamed(r: Receiver, base: nat, count: nat, log: seq<nat>, j: nat)
    requires |log| < 256 && Buffered(r, log) && j < |log| && j >= |log| - ACK_NUM
    requires count == (if |log| >= ACK_NUM then ACK_NUM else |log|) && base < log[j] < base + U16
    ensures log[j] - base in AckedOffsets(base, r.ackeds[..count])
  {
    assert j % ACK_NUM < count;
    assert r.ackeds[..count][j % ACK_NUM] == log[j];
    OffsetsHave(base, r.ackeds[..count], j % ACK_NUM);
    OffsetIsExact(log[j], base);
  }

  // ---- what a message says ----

  /**
   * In every reachable state an acknowledgement moves the base as far as it can, forgets exactly the losses up to the
   * floor of the ring, and asks for exactly the reported ids, unless it gives them up for a key frame. Of the ids
   * taken since the last acknowledgement, while they are at most 255, it covers the last 20.
   */
  lemma AcknowledgeMovesBase(actions: seq<Action>, ackedId: nat, reported: seq<nat>, slow: bool) returns (m: Ack)
    requires Feasible(START, actions) && Enabled(Run(START, actions), Acknowledge(ackedId, reported, slow))
    ensures var y := Run(START, actions);
      var z := Step(y, Acknowledge(ackedId, reported, slow));
      var giveUp := slow && reported != [];
      && z.acks == y.acks + {m} && m.base == z.receiver.base && m.ackedId == ackedId
      && GreatestBase(y.receiver, m.base)
      && z.receiver.loss == (if giveUp then {} else Open(y.receiver))
      && z.receiver.max == y.receiver.max && z.receiver.cache == y.receiver.cache
      && Names(m.base, m.nacks, if giveUp then [] else reported)
      && Covers(m, Recent(START, actions, []))
  {
    var y := Run(START, actions);
    Reachable(actions);
    StartOk();
    RunBuffers(START, actions, []);
    m := MakeAck(y.receiver, ackedId, reported, slow).1;
    MessageCovers(y, ackedId, reported, slow, Recent(START, actions, []));
    MessageMoves(y, ackedId, reported, slow);
  }

  lemma MessageMoves(y: System, ackedId: nat, reported: seq<nat>, slow: bool)
    requires Inv(y) && Enabled(y, Acknowledge(ackedId, reported, slow))
    ensures var (r, m) := MakeAck(y.receiver, ackedId, reported, slow);
      && GreatestBase(y.receiver, m.base)
      && r.loss == (if slow && reported != [] then {} else Open(y.receiver))
      && Names(m.base, m.nacks, if slow && reported != [] then [] else reported)
  {
    var m := MakeAck(y.receiver, ackedId, reported, slow).1;
    assert UpdateBase(y.receiver).loss == Open(y.receiver);
    forall i | 0 <= i < |m.nacks| ensures m.base + m.nacks[i] == reported[i] {
      OffsetIsExact(reported[i], m.base);
    }
  }

  // ---- what its delivery releases ----

  /** The sender holds only issued ids above its base. */
  predicate HeldAbove(s: Sender) {
    s.base <= s.seed && forall id :: id in s.held ==> s.base < id <= s.seed
  }

  predicate Acked(m: Ack, id: nat) {
    exists i :: 0 <= i < |m.acked| && m.base + m.acked[i] == id
  }

  lemma OnAckReleases(s: Sender, m: Ack)
    requires HeldAbove(s)
    ensures HeldAbove(OnAck(s, m))
    ensures Accepts(s, m) ==> var t := OnAck(s, m);
      && t == s.(base := t.base, held := t.held) && t.base == Max(s.base, m.base)
      && forall id :: id in t.held <==> id in s.held && id > m.base && !Acked(m, id)
  {
    var raised := RaiseBase(s, m.base);
    forall id ensures id in Drop(raised.held, m.base, m.acked) <==> id in raised.held && !Acked(m, id) {
      DropIs(raised.held, m.base, m.acked, id);
    }
  }

  lemma StepHeld(y: System, a: Action)
    requires Inv(y) && Enabled(y, a) && HeldAbove(y.sender)
    ensures HeldAbove(Step(y, a).sender)
  {
    if a.AckArrives? {
      OnAckReleases(y.sender, a.ack);
    } else if a.BaseArrives? {
      StepKeeps(y, a);
    }
  }

  lemma {:induction false} RunHeld(y: System, actions: seq<Action>)
    requires Inv(y) && Feasible(y, actions) && HeldAbove(y.sender)
    ensures HeldAbove(Run(y, actions).sender)
    decreases |actions|
  {
    if actions != [] {
      StepHeld(y, actions[0]);
      StepKeeps(y, actions[0]);
      RunHeld(Step(y, actions[0]), actions[1..]);
    }
  }

  /**
   * In every run, an acknowledgement leaves the sender holding exactly what it does not cover, unless it was made for
   * an id that the sender never issued.
   */
  lemma DeliveryReleases(actions: seq<Action>, m: Ack)
    requires Feasible(START, actions) && m in Run(START, actions).acks
    ensures var s := Run(START, actions).sender; var t := Step(Run(START, actions), AckArrives(m)).sender;
      if m.ackedId > s.seed then t == s
      else
        && t.base == Max(s.base, m.base)
        && forall id :: id in t.held <==> id in s.held && id > m.base && !Acked(m, id)
  {
    StartOk();
    RunHeld(START, actions);
    OnAckReleases(Run(START, actions).sender, m);
    Reachable(actions);
    assert AckOk(Run(START, actions), m);
  }

  lemma {:induction false} ResentIs(s: Sender, base: nat, nacks: seq<nat>, due: set<nat>, id: nat)
    ensures id in Resent(s, base, nacks, due) <==>
            s.base < id && id in s.held && id in due && exists i :: 0 <= i < |nacks| && base + nacks[i] == id
  {
    if nacks != [] {
      var init, last := nacks[..|nacks| - 1], nacks[|nacks| - 1];
      ResentIs(s, base, init, due, id);
      assert nacks == init + [last];
      assert (exists i :: 0 <= i < |nacks| && base + nacks[i] == id) <==>
             (exists i :: 0 <= i < |init| && base + init[i] == id) || base + last == id by {
        if base + last == id { assert base + nacks[|nacks| - 1] == id; }
        if i :| 0 <= i < |init| && base + init[i] == id { assert base + nacks[i] == id; }
      }
    }
  }

  /** In every run exactly the reported losses that the sender holds and its timers let go are sent again. */
  lemma DeliveryResends(actions: seq<Action>, m: Ack, due: set<nat>, id: nat)
    requires Feasible(START, actions) && m in Run(START, actions).acks
    ensures var t := Step(Run(START, actions), AckArrives(m)).sender;
      id in Resent(t, m.base, m.nacks, due) <==>
      id in t.held && id in due && exists i :: 0 <= i < |m.nacks| && m.base + m.nacks[i] == id
  {
    var y := Run(START, actions);
    StartOk();
    RunHeld(START, actions);
    Reachable(actions);
    StepHeld(y, AckArrives(m));
    ResentIs(Step(y, AckArrives(m)).sender, m.base, m.nacks, due, id);
  }

  /** The base of a feedback message releases everything up to it, and nothing else. */
  lemma BaseReleases(actions: seq<Action>, b: nat)
    requires Feasible(START, actions) && b in Run(START, actions).bases
    ensures var s := Run(START, actions).sender; var t := Step(Run(START, actions), BaseArrives(b)).sender;
      t.base == Max(s.base, b) && forall id :: id in t.held <==> id in s.held && id > b
  {
    StartOk();
    RunHeld(START, actions);
  }

  /** Messages stay in the network. */
  lemma {:induction false} AcksStay(y: System, actions: seq<Action>, m: Ack)
    requires Feasible(y, actions) && m in y.acks
    ensures m in Run(y, actions).acks
    decreases |actions|
  {
    if actions != [] { AcksStay(Step(y, actions[0]), actions[1..], m); }
  }

  lemma {:induction false} RunJoin(y: System, first: seq<Action>, more: seq<Action>)
    requires Feasible(y, first) && Feasible(Run(y, first), more)
    ensures Feasible(y, first + more) && Run(y, first + more) == Run(Run(y, first), more)
    decreases |first|
  {
    if first == [] {
      assert first + more == more;
    } else {
      assert (first + more)[1..] == first[1..] + more;
      RunJoin(Step(y, first[0]), first[1..], more);
    }
  }

  /**
   * When an acknowledgement is made while no loss is open, its delivery, at whatever later time, leaves the sender
   * holding no id up to the newest one the receiver had seen.
   */
  lemma CaughtUpReleasesAll(actions: seq<Action>, ackedId: nat, slow: bool, more: seq<Action>) returns (m: Ack)
    requires Feasible(START, actions) && Enabled(Run(START, actions), Acknowledge(ackedId, [], slow))
    requires Open(Run(START, actions).receiver) == {}
    requires Feasible(Step(Run(START, actions), Acknowledge(ackedId, [], slow)), more)
    ensures var y := Run(START, actions);
      var w := Run(Step(y, Acknowledge(ackedId, [], slow)), more);
      && m in w.acks && m.base == y.receiver.max && m.ackedId == ackedId
      && (ackedId <= w.sender.seed ==> forall id :: id in Step(w, AckArrives(m)).sender.held ==> id > y.receiver.max)
  {
    var y, a := Run(START, actions), Acknowledge(ackedId, [], slow);
    m := AcknowledgeMovesBase(actions, ackedId, [], slow);
    AcksStay(Step(y, a), more, m);
    assert ([a] + more)[1..] == more;
    RunJoin(START, actions, [a] + more);
    DeliveryReleases(actions + ([a] + more), m);
  }
}
