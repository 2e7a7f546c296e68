// What the controller knows of rounds, bandwidth and round-trip time (ReCapABR/bbr/bbr_controller.c).

/** The estimates of every run against a record of what the feedbacks brought. */
module BbrEstimates {
  import opened BbrSteps
  import opened BbrRuns
  import W = WindowFilters

  /**
   * lastSent is the last packet sent, roundEnd the last one sent when the present round began, rounds the number of
   * rounds; fed are the bandwidth samples that counted, by round; rtts are the smallest round-trip times of the
   * feedbacks since their minimum expired, and rttAt is when the minimum was last confirmed.
   */
  datatype Record = Record(
    lastSent: int, roundEnd: int, rounds: nat, fed: seq<W.Sample>, rtts: seq<int>, rttAt: int)

  const NOTHING := Record(0, 0, 0, [], [], 0)

  function Feeds(fed: seq<W.Sample>): seq<W.Op> {
    if fed == [] then [] else Feeds(fed[..|fed| - 1]) + [W.Feed(fed[|fed| - 1])]
  }

  function FilterOf(fed: seq<W.Sample>): W.State {
    W.Run(W.Start(10), W.Max, Feeds(fed))
  }

  /** The least of some round-trip times, counted as 5 at least; 0 without any. */
  function Least(rtts: seq<int>): int {
    if rtts == [] then 0
    else
      var before, r := Least(rtts[..|rtts| - 1]), AtLeast(rtts[|rtts| - 1], 5);
      if before == 0 || r < before then r else before
  }

  /** What a smallest round-trip time adds. */
  function NoteRtt(k: Record, now: int, r: int): Record {
    var expired := k.rtts != [] && now > k.rttAt + 10000;
    k.(rtts := if expired then [r] else k.rtts + [r],
       rttAt := if expired || k.rtts == [] || r < Least(k.rtts) then now else k.rttAt)
  }

  /** What the sample of the last acked packet adds, unless it was short of data and is no better than the best. */
  function NoteBandwidth(k: Record, last: Ack): Record {
    if last.appLimited && last.bandwidth <= FilterOf(k.fed).filter.first.value then k
    else k.(fed := k.fed + [W.Sample(last.bandwidth, k.rounds)])
  }

  function NoteRound(k: Record, lastAcked: int): Record {
    if lastAcked > k.roundEnd then k.(rounds := k.rounds + 1, roundEnd := k.lastSent) else k
  }

  /** What the acked packets add before recovery is looked at. */
  function NoteMeasures(k: Record, f: Feedback): Record
    requires f.acks != []
  {
    var last := f.acks[|f.acks| - 1];
    var q := NoteRound(k, last.number);
    var r := SmallestRtt(f.acks);
    if r == -1 then q else NoteRtt(NoteBandwidth(q, last), f.time, r)
  }

  /** What the acked packets add; a loss that begins a recovery also begins a round. */
  function NoteAcks(k: Record, f: Feedback, begins: bool): Record {
    if f.acks == [] then k
    else if begins then NoteMeasures(k, f).(roundEnd := f.acks[|f.acks| - 1].number)
    else NoteMeasures(k, f)
  }

  /** What one operation adds to the record. */
  function Note(k: Record, b: Bbr, op: Op): Record {
    match op
    case Send(n, _) => k.(lastSent := n)
    case Receive(f) =>
      if f.packets == 0 then k
      else
        var q := NoteAcks(k, f, b.recovery == NotInRecovery && f.losses);
        if b.mode == ProbeRtt && Step(b, op).mode != ProbeRtt then q.(rttAt := f.time) else q
  }

  function Noted(k: Record, b: Bbr, ops: seq<Op>): Record
    decreases |ops|
  {
    if ops == [] then k else Noted(Note(k, b, ops[0]), Step(b, ops[0]), ops[1..])
  }

  // ---- the smallest round-trip time ----

  /** It is the least of the positive ones, and -1 exactly when there is none. */
  lemma {:induction false} SmallestRttIs(acks: seq<Ack>)
    ensures var r := SmallestRtt(acks);
      && (r == -1 <==> forall a :: a in acks ==> a.rtt <= 0)
      && (r != -1 ==> r > 0 && (exists a :: a in acks && a.rtt == r) && forall a :: a in acks && a.rtt > 0 ==> r <= a.rtt)
  {
    if acks != [] {
      var before, last := acks[..|acks| - 1], acks[|acks| - 1];
      SmallestRttIs(before);
      assert acks == before + [last];
      assert forall a :: a in acks <==> a in before || a == last;
    }
  }

  // ---- the filter ----

  lemma {:induction false} RunSnoc(st: W.State, ops: seq<W.Op>, op: W.Op)
    ensures W.Run(st, W.Max, ops + [op]) == W.Step(W.Run(st, W.Max, ops), W.Max, op)
    ensures W.Feasible(st, W.Max, ops + [op]) <==>
            W.Feasible(st, W.Max, ops) && W.Enabled(W.Run(st, W.Max, ops), op)
    decreases |ops|
  {
    if ops == [] {
      assert ([] + [op])[1..] == [];
    } else {
      assert (ops + [op])[1..] == ops[1..] + [op];
      RunSnoc(W.Step(st, W.Max, ops[0]), ops[1..], op);
    }
  }

  lemma FedOne(fed: seq<W.Sample>, s: W.Sample)
    ensures FilterOf(fed + [s]) == W.Step(FilterOf(fed), W.Max, W.Feed(s))
    ensures W.Feasible(W.Start(10), W.Max, Feeds(fed + [s])) <==>
            W.Feasible(W.Start(10), W.Max, Feeds(fed)) && W.Enabled(FilterOf(fed), W.Feed(s))
  {
    assert (fed + [s])[..|fed|] == fed;
    RunSnoc(W.Start(10), Feeds(fed), W.Feed(s));
  }

  lemma {:induction false} FedIs(fed: seq<W.Sample>)
    ensures FilterOf(fed).fed == [W.Sample(0, 0)] + fed && FilterOf(fed).filter.window == 10
  {
    if fed != [] {
      var init, s := fed[..|fed| - 1], fed[|fed| - 1];
      FedIs(init);
      assert fed == init + [s];
      FedOne(init, s);
    }
  }

  lemma LeastNext(rtts: seq<int>, r: int)
    ensures Least(rtts + [r]) == if rtts == [] || AtLeast(r, 5) < Least(rtts) then AtLeast(r, 5) else Least(rtts)
  {
    assert (rtts + [r])[..|rtts|] == rtts;
    LeastIsLeast(rtts);
  }

  /** Least in its own words. */
  lemma {:induction false} LeastIsLeast(rtts: seq<int>)
    ensures rtts == [] ==> Least(rtts) == 0
    ensures rtts != [] ==> Least(rtts) >= 5 && (Least(rtts) == 5 || Least(rtts) in rtts)
    ensures forall r :: r in rtts ==> Least(rtts) <= AtLeast(r, 5)
  {
    if rtts != [] {
      var init, last := rtts[..|rtts| - 1], rtts[|rtts| - 1];
      LeastIsLeast(init);
      assert rtts == init + [last];
    }
  }

  // ---- the record and the controller agree ----

  ghost predicate Agrees(k: Record, b: Bbr) {
    && b.lastSent == k.lastSent && b.roundEnd == k.roundEnd && b.rounds == k.rounds
    && b.bandwidth == FilterOf(k.fed).filter
    && b.minRtt == Least(k.rtts) && b.minRttAt == k.rttAt
    && W.Feasible(W.Start(10), W.Max, Feeds(k.fed))
    && forall i :: 0 <= i < |k.fed| ==> 0 <= k.fed[i].ts <= k.rounds
  }

  lemma RoundAgrees(k: Record, b: Bbr, lastAcked: int)
    requires Agrees(k, b)
    ensures Agrees(NoteRound(k, lastAcked), CountRound(b, lastAcked))
  {
  }

  lemma BandwidthAgrees(k: Record, b: Bbr, last: Ack)
    requires Agrees(k, b)
    ensures Agrees(NoteBandwidth(k, last), MeasureBandwidth(b, last))
  {
    var s := W.Sample(last.bandwidth, k.rounds);
    var q, c := NoteBandwidth(k, last), MeasureBandwidth(b, last);
    FedIs(k.fed);
    FedOne(k.fed, s);
    if q != k { FedAgrees(k.fed, s, k.rounds); }
    assert c == b.(bandwidth := c.bandwidth) && c.bandwidth == FilterOf(q.fed).filter;
  }

  lemma FedAgrees(fed: seq<W.Sample>, s: W.Sample, rounds: nat)
    requires W.Feasible(W.Start(10), W.Max, Feeds(fed)) && s.ts == rounds
    requires forall i :: 0 <= i < |fed| ==> 0 <= fed[i].ts <= rounds
    ensures W.Feasible(W.Start(10), W.Max, Feeds(fed + [s]))
    ensures forall i :: 0 <= i < |fed + [s]| ==> 0 <= (fed + [s])[i].ts <= rounds
  {
    FedIs(fed);
    FedOne(fed, s);
  }

  lemma LeastAfter(rtts: seq<int>, expired: bool, r: int)
    requires r > 0 && (expired ==> rtts != [])
    ensures (rtts == [] <==> Least(rtts) <= 0)
    ensures Least(if expired then [r] else rtts + [r]) ==
            if expired || rtts == [] || r < Least(rtts) then AtLeast(r, 5) else Least(rtts)
  {
    LeastIsLeast(rtts);
    LeastNext(rtts, r);
    LeastNext([], r);
    assert [] + [r] == [r];
  }

  lemma RttAgrees(k: Record, b: Bbr, now: int, r: int)
    requires Agrees(k, b) && r > 0
    ensures Agrees(NoteRtt(k, now, r), MeasureRtt(b, now, r))
  {
    LeastAfter(k.rtts, k.rtts != [] && now > k.rttAt + 10000, r);
    MeasureRttFrame(b, now, r);
    var q, c := NoteRtt(k, now, r), MeasureRtt(b, now, r);
    assert q.fed == k.fed && q.rounds == k.rounds && c.bandwidth == b.bandwidth;
    assert c.minRtt == Least(q.rtts) && c.minRttAt == q.rttAt;
  }

  /** What the record is about. */
  predicate SameRecord(b: Bbr, c: Bbr) {
    && c.lastSent == b.lastSent && c.roundEnd == b.roundEnd && c.rounds == b.rounds
    && c.bandwidth == b.bandwidth && c.minRtt == b.minRtt
  }

  lemma RecoveryKeepsRecord(b: Bbr, lastAcked: int, losses: bool, roundStart: bool)
    ensures var c := UpdateRecovery(b, lastAcked, losses, roundStart);
      && SameRecord(b.(roundEnd := c.roundEnd), c) && c.minRttAt == b.minRttAt
      && c.roundEnd == if b.recovery == NotInRecovery && losses then lastAcked else b.roundEnd
  {
  }

  lemma MeasureAgrees(k: Record, b: Bbr, f: Feedback)
    requires Agrees(k, b) && f.acks != []
    ensures Agrees(NoteMeasures(k, f), Measure(CountRound(b, LastAcked(f)), f.time, f.acks).0)
  {
    var last := f.acks[|f.acks| - 1];
    var q, c := NoteRound(k, last.number), CountRound(b, last.number);
    RoundAgrees(k, b, last.number);
    var d := c.(appLimited := last.appLimited);
    SmallestRttIs(f.acks);
    var r := SmallestRtt(f.acks);
    if r != -1 {
      BandwidthAgrees(q, d, last);
      RttAgrees(NoteBandwidth(q, last), MeasureBandwidth(d, last), f.time, r);
    }
  }

  lemma RoundEndAgrees(k: Record, b: Bbr, c: Bbr)
    requires Agrees(k, b) && SameRecord(b.(roundEnd := c.roundEnd), c) && c.minRttAt == b.minRttAt
    ensures Agrees(k.(roundEnd := c.roundEnd), c)
  {
  }

  lemma AcksAgree(k: Record, b: Bbr, f: Feedback)
    requires Agrees(k, b)
    ensures Agrees(NoteAcks(k, f, b.recovery == NotInRecovery && f.losses), OnAcks(b, f).0)
  {
    if f.acks != [] {
      var m := Measure(CountRound(b, LastAcked(f)), f.time, f.acks).0;
      MeasureAgrees(k, b, f);
      MeasureFrame(CountRound(b, LastAcked(f)), f.time, f.acks);
      RecoveryKeepsRecord(m, LastAcked(f), f.losses, RoundStart(b, f));
      RoundEndAgrees(NoteMeasures(k, f), m, OnAcks(b, f).0);
    }
  }

  lemma AgreesAlike(k: Record, b: Bbr, c: Bbr)
    requires Agrees(k, b) && SameRecord(b, c)
    ensures Agrees(k.(rttAt := c.minRttAt), c)
  {
  }

  lemma CycleKeepsRecord(b: Bbr, f: Feedback)
    ensures SameRecord(b, OnCycle(b, f)) && OnCycle(b, f).minRttAt == b.minRttAt
  {
  }

  lemma LeaveKeepsRecord(b: Bbr, f: Feedback)
    ensures var c := LeaveStartupOrDrain(b, f.time, f.inFlight, f.random);
      SameRecord(b, c) && c.minRttAt == b.minRttAt && (b.mode == ProbeRtt <==> c.mode == ProbeRtt)
  {
  }

  lemma ExitKeepsRecord(b: Bbr, f: Feedback, roundStart: bool)
    requires b.mode == ProbeRtt
    ensures var c := ExitProbeRtt(b, f, roundStart);
      && SameRecord(b, c)
      && c.minRttAt == if c.mode != ProbeRtt then f.time else b.minRttAt
  {
  }

  lemma ProbeRttKeepsRecord(b: Bbr, f: Feedback, roundStart: bool, expired: bool)
    ensures var c := EnterOrExitProbeRtt(b, f, roundStart, expired);
      && SameRecord(b, c)
      && c.minRttAt == if b.mode == ProbeRtt && c.mode != ProbeRtt then f.time else b.minRttAt
  {
    var e := EnterProbeRtt(b, expired);
    if e.mode == ProbeRtt { ExitKeepsRecord(e, f, roundStart); }
  }

  /** After the acks a feedback touches the record only by leaving PROBE_RTT. */
  lemma RestKeepsRecord(b: Bbr, f: Feedback)
    requires f.packets > 0
    ensures var a, c := OnAcks(b, f).0, OnFeedback(b, f);
      && SameRecord(a, c)
      && c.minRttAt == if b.mode == ProbeRtt && c.mode != ProbeRtt then f.time else a.minRttAt
  {
    var a := OnAcks(b, f).0;
    OnAcksFrame(b, f);
    CycleKeepsRecord(a, f);
    var d := OnCycle(a, f);
    CheckFrame(d);
    var e := if Checks(b, f) then CheckFull(d) else d;
    assert e.mode == b.mode;
    LeaveKeepsRecord(e, f);
    ProbeRttKeepsRecord(BeforeProbeRtt(b, f), f, RoundStart(b, f), OnAcks(b, f).1);
    WindowsFrame(AfterProbeRtt(b, f), f);
  }

  lemma StepAgrees(k: Record, b: Bbr, op: Op)
    requires Agrees(k, b)
    ensures Agrees(Note(k, b, op), Step(b, op))
  {
    if op.Receive? && op.feedback.packets > 0 {
      var f := op.feedback;
      AcksAgree(k, b, f);
      RestKeepsRecord(b, f);
      AgreesAlike(NoteAcks(k, f, b.recovery == NotInRecovery && f.losses), OnAcks(b, f).0, OnFeedback(b, f));
    }
  }

  lemma {:induction false} RunAgrees(k: Record, b: Bbr, ops: seq<Op>)
    requires Agrees(k, b)
    ensures Agrees(Noted(k, b, ops), Run(b, ops))
    decreases |ops|
  {
    if ops != [] {
      StepAgrees(k, b, ops[0]);
      RunAgrees(Note(k, b, ops[0]), Step(b, ops[0]), ops[1..]);
    }
  }

  /** In every run the minimal round-trip time is the least since it last expired, counted as 5 at least. */
  lemma MinRttIsLeast(ops: seq<Op>)
    ensures var b := Run(Start(), ops); var rtts := Noted(NOTHING, Start(), ops).rtts;
      && b.minRttAt == Noted(NOTHING, Start(), ops).rttAt
      && (rtts == [] ==> b.minRtt == 0)
      && (rtts != [] ==> b.minRtt >= 5 && (b.minRtt == 5 || b.minRtt in rtts))
      && (forall r :: r in rtts ==> b.minRtt <= AtLeast(r, 5))
  {
    RunAgrees(NOTHING, Start(), ops);
    LeastIsLeast(Noted(NOTHING, Start(), ops).rtts);
  }

  /**
   * In every run the bandwidth estimate is a sample that counted, no sample fed since beats it, and it was fed no more
   * than ten rounds before the last one. Rounds are counted, and begin, as the packets sent and acked say.
   */
  lemma EstimateIsRecentBest(ops: seq<Op>)
    ensures var b := Run(Start(), ops); var k := Noted(NOTHING, Start(), ops); var h := [W.Sample(0, 0)] + k.fed;
      && b.rounds == k.rounds && b.roundEnd == k.roundEnd
      && W.BestSince(b.bandwidth.first, W.Max, h)
      && (k.fed != [] ==> 0 <= h[|h| - 1].ts - b.bandwidth.first.ts <= 10)
  {
    var k := Noted(NOTHING, Start(), ops);
    RunAgrees(NOTHING, Start(), ops);
    W.RunsKeepEstimates(10, W.Max, Feeds(k.fed));
    FedIs(k.fed);
    if k.fed != [] {
      var init, s := k.fed[..|k.fed| - 1], k.fed[|k.fed| - 1];
      assert k.fed == init + [s];
      FedOne(init, s);
      FedIs(init);
      W.RunsStayInWindow(10, W.Max, Feeds(init), s);
    }
  }
}
