// What arriving segments and the age limit do in every run of the retransmission protocol
// (ReCapABR/sim_transport/sim_receiver.c and sim_sender.c).

/** Where the numbering starts, which ids an arrival lists as lost, and which time counts as the newest. */
module ArrivalRuns {
  import opened Wrappers
  import opened Segments
  import opened Reassembly
  import opened Fragmenter
  import opened Retransmission
  import opened RetransmissionRuns
  import opened AcknowledgementRuns

  /** The receiver looks at segment i of frame f: it is new, and the first of all belongs to a key frame. */
  predicate Considers(y: System, f: nat, i: nat)
    requires f in y.sent
  {
    && y.sent[f].firstId + i > y.receiver.base
    && (y.receiver.max == 0 ==> y.sent[f].ftype != 0)
  }

  /** The newest id before the arrival; the first segment of all makes its frame the next one expected. */
  function NewestBefore(y: System, f: nat): int
    requires f in y.sent
  {
    if y.receiver.max == 0 then y.sent[f].firstId - 1 else y.receiver.max
  }

  function TimeBefore(y: System, f: nat): nat
    requires f in y.sent
  {
    if y.receiver.max == 0 then y.sent[f].timestamp else y.receiver.maxTs
  }

  /**
   * In every reachable state, what one arrival makes of base, newest id, newest time and losses. A segment that is not
   * considered changes nothing. The first one seats the base just before its frame. One more than three seconds newer
   * than the newest clears the losses for a key frame, as a slow link does. Otherwise the losses lose its id and gain
   * the ids between the newest one and it.
   */
  lemma ArrivalMoves(actions: seq<Action>, f: nat, i: nat, slow: bool)
    requires Feasible(START, actions) && Enabled(Run(START, actions), Arrive(f, i, slow))
    ensures var y := Run(START, actions); var z := Step(y, Arrive(f, i, slow));
      var id, time := y.sent[f].firstId + i, y.sent[f].timestamp;
      var newest := NewestBefore(y, f);
      if !Considers(y, f, i) then z.receiver == y.receiver
      else
        && z.receiver.base == (if y.receiver.max == 0 then y.sent[f].firstId - 1 else y.receiver.base)
        && z.receiver.max == (if Takes(y, Arrive(f, i, slow)) && newest < id then id else newest)
        && z.receiver.maxTs == (if Takes(y, Arrive(f, i, slow)) then Max(TimeBefore(y, f), time) else TimeBefore(y, f))
        && (TimeBefore(y, f) + 3000 < time || slow ==> z.receiver.loss == {} && z.cleared)
        && (!(TimeBefore(y, f) + 3000 < time || slow) ==>
              && z.cleared == y.cleared
              && forall x: nat :: x in z.receiver.loss <==> (x in y.receiver.loss && x != id) || newest < x < id)
  {
    var y := Run(START, actions);
    var g := SegmentOf(y.sent[f], i);
    Reachable(actions);
    PartIs(y, f, i);
    CanPutPart(y, g, f, i);
    StepArriveIs(y, g, slow);
    assert FrameAt(y, f);
  }
}

/** What the age limit releases. */
module EvictionRuns {
  import opened Wrappers
  import opened Segments
  import opened Fragmenter
  import opened Retransmission
  import opened RetransmissionRuns
  import opened AcknowledgementRuns

  /** The entry names a packet of a frame that was sent, and the frame's time. */
  predicate IsStored(y: System, e: Sent, f: nat) {
    f in y.sent && y.sent[f].firstId <= e.id < EndId(y.sent[f]) && e.timestamp == y.sent[f].timestamp
  }

  ghost predicate EntryOk(y: System, j: int) {
    0 <= j < |y.sender.stored| ==> exists f :: IsStored(y, y.sender.stored[j], f)
  }

  predicate StoredAt(y: System, id: nat, j: nat) {
    j < |y.sender.stored| && y.sender.stored[j].id == id
  }

  predicate Increasing(y: System, j: int, k: int) {
    0 <= j < k < |y.sender.stored| ==> y.sender.stored[j].id < y.sender.stored[k].id
  }

  /** The stored list names issued packets in order, and all that are held. */
  ghost predicate StoredOk(y: System) {
    && (forall j :: EntryOk(y, j)) && (forall j, k :: Increasing(y, j, k))
    && (forall j: nat :: j < |y.sender.stored| ==> y.sender.stored[j].id <= y.sender.seed)
    && (forall id :: id in y.sender.held ==> exists j :: StoredAt(y, id, j))
  }

  lemma {:induction false} SentFromIs(seed: nat, n: nat, timestamp: nat)
    ensures |SentFrom(seed, n, timestamp)| == n
    ensures forall j :: 0 <= j < n ==> SentFrom(seed, n, timestamp)[j] == Sent(seed + j + 1, timestamp)
  {
    if n > 0 { SentFromIs(seed, n - 1, timestamp); }
  }

  lemma SendStored(y: System, data: seq<byte>, timestamp: nat, ftype: nat)
    requires Inv(y) && StoredOk(y)
    ensures StoredOk(StepSend(y, data, timestamp, ftype))
  {
    var z := StepSend(y, data, timestamp, ftype);
    var f := NextFrame(y.sender, data, timestamp, ftype);
    var n, m := Total(|data|), |y.sender.stored|;
    SentFromIs(y.sender.seed, n, timestamp);
    forall j ensures EntryOk(z, j) {
      assert EntryOk(y, j);
      if m <= j < m + n { assert IsStored(z, z.sender.stored[j], f.fid); }
      if 0 <= j < m {
        var g :| IsStored(y, y.sender.stored[j], g);
        assert IsStored(z, z.sender.stored[j], g);
      }
    }
    forall j, k ensures Increasing(z, j, k) { assert Increasing(y, j, k); }
    forall id | id in z.sender.held ensures exists j :: StoredAt(z, id, j) {
      if id in y.sender.held {
        var j :| StoredAt(y, id, j);
        assert StoredAt(z, id, j);
      } else {
        assert StoredAt(z, id, m + (id - y.sender.seed - 1));
      }
    }
  }

  lemma ExpiredHas(stored: seq<Sent>, elapsed: nat, j: nat)
    requires j < Expired(stored, elapsed)
    ensures stored[j].id in ExpiredIds(stored, elapsed)
  {
  }

  lemma EvictStored(y: System, elapsed: nat)
    requires StoredOk(y)
    ensures StoredOk(y.(sender := EvictOld(y.sender, elapsed)))
  {
    var z := y.(sender := EvictOld(y.sender, elapsed));
    var k := Expired(y.sender.stored, elapsed);
    forall j ensures EntryOk(z, j) {
      assert EntryOk(y, j + k);
      if 0 <= j < |z.sender.stored| {
        var g :| IsStored(y, y.sender.stored[j + k], g);
        assert IsStored(z, z.sender.stored[j], g);
      }
    }
    forall i, j ensures Increasing(z, i, j) { assert Increasing(y, i + k, j + k); }
    forall id | id in z.sender.held ensures exists j :: StoredAt(z, id, j) {
      var j: nat :| StoredAt(y, id, j);
      if j < k { ExpiredHas(y.sender.stored, elapsed, j); }
      assert StoredAt(z, id, j - k);
    }
  }

  /** Dropping held ids keeps the rest. */
  lemma DropStored(y: System, z: System)
    requires StoredOk(y) && z.sent == y.sent && z.sender.seed == y.sender.seed && z.sender.stored == y.sender.stored
    requires z.sender.held <= y.sender.held
    ensures StoredOk(z)
  {
    forall j ensures EntryOk(z, j) {
      assert EntryOk(y, j);
      if 0 <= j < |z.sender.stored| {
        var g :| IsStored(y, y.sender.stored[j], g);
        assert IsStored(z, z.sender.stored[j], g);
      }
    }
    forall j, k ensures Increasing(z, j, k) { assert Increasing(y, j, k); }
    forall id | id in z.sender.held ensures exists j :: StoredAt(z, id, j) {
      var j :| StoredAt(y, id, j);
      assert StoredAt(z, id, j);
    }
  }

  lemma StepStored(y: System, a: Action)
    requires Inv(y) && HeldAbove(y.sender) && StoredOk(y) && Enabled(y, a)
    ensures StoredOk(Step(y, a))
  {
    if a.SendFrame? {
      SendStored(y, a.data, a.timestamp, a.ftype);
    } else if a.AgeOut? {
      EvictStored(y, a.elapsed);
      DropStored(y.(sender := EvictOld(y.sender, a.elapsed)), Step(y, a));
    } else {
      if a.AckArrives? { OnAckReleases(y.sender, a.ack); }
      DropStored(y, Step(y, a));
    }
  }

  lemma {:induction false} RunStored(y: System, actions: seq<Action>)
    requires Inv(y) && HeldAbove(y.sender) && StoredOk(y) && Feasible(y, actions)
    ensures StoredOk(Run(y, actions))
    decreases |actions|
  {
    if actions != [] {
      StepStored(y, actions[0]);
      StepHeld(y, actions[0]);
      StepKeeps(y, actions[0]);
      RunStored(Step(y, actions[0]), actions[1..]);
    }
  }

  lemma {:induction false} ExpiredIs(stored: seq<Sent>, elapsed: nat)
    ensures var k := Expired(stored, elapsed);
      && (forall j :: 0 <= j < k ==> stored[j].timestamp + 6000 <= elapsed)
      && (k < |stored| ==> stored[k].timestamp + 6000 > elapsed)
  {
    if stored != [] && stored[0].timestamp + 6000 <= elapsed {
      ExpiredIs(stored[1..], elapsed);
      var k := Expired(stored[1..], elapsed);
      forall j | 0 <= j < k + 1 ensures stored[j].timestamp + 6000 <= elapsed {
        if j > 0 { assert stored[j] == stored[1..][j - 1]; }
      }
    }
  }

  /** Frames were put in the order of their times. */
  predicate TimesRise(y: System) {
    forall f, g :: f in y.sent && g in y.sent && f < g ==> y.sent[f].timestamp <= y.sent[g].timestamp
  }

  lemma SameFrame(y: System, id: nat, f: nat, g: nat)
    requires SentOk(y) && f in y.sent && g in y.sent
    requires y.sent[f].firstId <= id < EndId(y.sent[f]) && y.sent[g].firstId <= id < EndId(y.sent[g])
    ensures f == g
  {
    assert FramesApart(y, f, g) && FramesApart(y, g, f);
  }

  lemma StoredTimesRise(y: System, j: nat, k: nat)
    requires SentOk(y) && StoredOk(y) && TimesRise(y) && j < k < |y.sender.stored|
    ensures y.sender.stored[j].timestamp <= y.sender.stored[k].timestamp
  {
    assert EntryOk(y, j) && EntryOk(y, k) && Increasing(y, j, k);
    var f :| IsStored(y, y.sender.stored[j], f);
    var g :| IsStored(y, y.sender.stored[k], g);
    assert FramesApart(y, g, f);
  }

  lemma StoredOnce(y: System, i: nat, j: nat)
    requires StoredOk(y) && i < j < |y.sender.stored|
    ensures y.sender.stored[i].id != y.sender.stored[j].id
  {
    assert Increasing(y, i, j);
  }

  /**
   * In every run in which frames are put in the order of their times, a held packet survives the age limit exactly
   * while its frame is less than six seconds old.
   */
  lemma AgeOutReleases(actions: seq<Action>, elapsed: nat, f: nat, id: nat)
    requires Feasible(START, actions) && TimesRise(Run(START, actions))
    requires var y := Run(START, actions);
      f in y.sent && y.sent[f].firstId <= id < EndId(y.sent[f]) && id in y.sender.held
    ensures var y := Run(START, actions);
      id in Step(y, AgeOut(elapsed)).sender.held <==> y.sent[f].timestamp + 6000 > elapsed
  {
    var y := Run(START, actions);
    Reachable(actions);
    StartOk();
    RunStored(START, actions);
    var s := y.sender.stored;
    var k := Expired(s, elapsed);
    ExpiredIs(s, elapsed);
    var j: nat :| StoredAt(y, id, j);
    assert EntryOk(y, j);
    var g :| IsStored(y, s[j], g);
    SameFrame(y, id, f, g);
    if j < k {
      ExpiredHas(s, elapsed, j);
    } else {
      if k < j { StoredTimesRise(y, k, j); }
      if id in ExpiredIds(s, elapsed) {
        var i :| 0 <= i < k && s[i].id == id;
        StoredOnce(y, i, j);
      }
    }
  }
}
