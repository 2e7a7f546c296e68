// Which mode one feedback leads to (ReCapABR/bbr/bbr_controller.c).

/** The automaton of the modes across a whole feedback, and when full bandwidth is found. */
module BbrModes {
  import opened BbrSteps
  import opened BbrRuns
  import opened BbrTargets
  import E = BbrEstimates

  // ---- what the acked packets show ----

  predicate Measures(f: Feedback) {
    exists a :: a in f.acks && a.rtt > 0
  }

  /** A round-trip time is measured more than ten seconds after the minimal one was confirmed. */
  predicate Expires(b: Bbr, f: Feedback) {
    b.minRtt > 0 && f.time > b.minRttAt + 10000 && Measures(f)
  }

  /** What the rest of a feedback only reads. */
  predicate SameSeen(b: Bbr, c: Bbr) {
    && SameMeasure(b, c) && c.lastRtt == b.lastRtt && c.appLimited == b.appLimited
    && c.recovery == b.recovery && c.endRecoveryAt == b.endRecoveryAt
  }

  lemma MeasureShows(b: Bbr, f: Feedback)
    requires f.acks != []
    ensures var (c, expired) := Measure(b, f.time, f.acks);
      && (expired <==> Expires(b, f))
      && c.endRecoveryAt == b.endRecoveryAt && c.appLimited == f.acks[|f.acks| - 1].appLimited
      && c.lastRtt == if Measures(f) then SmallestRtt(f.acks) else b.lastRtt
  {
    E.SmallestRttIs(f.acks);
  }

  /** The last ack that came with losses. */
  function LossMark(b: Bbr, f: Feedback): int {
    if f.acks != [] && f.losses then f.acks[|f.acks| - 1].number else b.endRecoveryAt
  }

  lemma AcksShow(b: Bbr, f: Feedback)
    ensures var (a, expired) := OnAcks(b, f);
      && SameControl(b, a) && (expired <==> Expires(b, f)) && a.endRecoveryAt == LossMark(b, f)
      && a.appLimited == (if f.acks == [] then b.appLimited else f.acks[|f.acks| - 1].appLimited)
      && a.lastRtt == if Measures(f) then SmallestRtt(f.acks) else b.lastRtt
  {
    OnAcksFrame(b, f);
    if f.acks != [] {
      var c := CountRound(b, LastAcked(f));
      MeasureShows(c, f);
      RecoveryKeepsSeen(Measure(c, f.time, f.acks).0, LastAcked(f), f.losses, RoundStart(b, f));
    }
  }

  lemma RecoveryKeepsSeen(b: Bbr, lastAcked: int, losses: bool, roundStart: bool)
    ensures var c := UpdateRecovery(b, lastAcked, losses, roundStart);
      && c.lastRtt == b.lastRtt && c.appLimited == b.appLimited
      && c.endRecoveryAt == if losses then lastAcked else b.endRecoveryAt
  {
  }

  lemma CycleKeepsSeen(b: Bbr, f: Feedback)
    ensures var c := OnCycle(b, f);
      && SameSeen(b, c) && SameCheck(b, c) && SameTimer(b, c) && c.mode == b.mode
  {
  }

  // ---- full bandwidth ----

  predicate SameCheck(b: Bbr, c: Bbr) {
    c.full == b.full && c.gainless == b.gainless && c.lastBandwidth == b.lastBandwidth
  }

  predicate SameTimer(b: Bbr, c: Bbr) {
    c.exitAt == b.exitAt && c.roundPassed == b.roundPassed && c.quiescent == b.quiescent
  }

  /** The rounds without growth and the bandwidth to outgrow, after a check that saw this estimate. */
  predicate Checked(b: Bbr, c: Bbr, estimate: int) {
    if (1.25 * b.lastBandwidth as real).Floor <= estimate
    then c.lastBandwidth == estimate && c.gainless == 0 && c.full == b.full
    else
      && c.lastBandwidth == b.lastBandwidth && c.gainless == b.gainless + 1
      && (c.full <==> b.full || c.gainless >= 3 || c.recovery != NotInRecovery)
  }

  lemma CheckIs(b: Bbr)
    ensures var c := CheckFull(b);
      && SameSeen(b, c) && SameTimer(b, c) && c.mode == b.mode
      && if b.appLimited then c == b else Checked(b, c, b.bandwidth.first.value)
  {
  }

  // ---- the mode ----

  /** The seven offsets of the cycle that may be drawn. */
  const DRAWN: seq<nat> := [0, 2, 3, 4, 5, 6, 7]

  /** STARTUP is left, or was left for DRAIN before. */
  predicate Drains(b: Bbr, c: Bbr) {
    b.mode == Drain || (b.mode == Startup && (c.full || c.lastRtt - c.minRtt > 100000000))
  }

  predicate ProbesFrom(c: Bbr, f: Feedback) {
    c.offset == DRAWN[f.random % 7] && c.cycleStart == f.time
  }

  lemma EntersProbeBw(b: Bbr, f: Feedback)
    ensures var c := EnterProbeBw(b, f.time, f.random);
      && ProbesFrom(c, f) && SameSeen(b, c) && SameCheck(b, c) && SameTimer(b, c)
  {
  }

  lemma LeaveIs(b: Bbr, f: Feedback)
    ensures var c := LeaveStartupOrDrain(b, f.time, f.inFlight, f.random);
      && SameSeen(b, c) && SameCheck(b, c) && SameTimer(b, c)
      && c.mode == (if Drains(b, b) then if f.inFlight <= Aim(b, 1.0) then ProbeBw else Drain else b.mode)
      && (b.mode != ProbeBw && c.mode == ProbeBw ==> ProbesFrom(c, f))
  {
    TargetIsAim(b, 1.0);
    EntersProbeBw(LeaveStartup(b), f);
  }

  /** A phase of PROBE_RTT ends at its time, once a round began since the timer was set. */
  predicate Ends(b: Bbr, f: Feedback) {
    b.exitAt >= 0 && f.time >= b.exitAt && (b.roundPassed || RoundStart(b, f))
  }

  /** The timer of PROBE_RTT after a feedback that stays in it: set by the first one with little enough in flight. */
  predicate TimerIs(b: Bbr, c: Bbr, f: Feedback, roundStart: bool) {
    if b.exitAt >= 0 then c.exitAt == b.exitAt && (c.roundPassed <==> b.roundPassed || roundStart)
    else if f.inFlight < Aim(c, 0.75) + 1452 then c.exitAt == f.time + 200 && !c.roundPassed
    else c.exitAt < 0
  }

  lemma ExitIs(b: Bbr, f: Feedback, roundStart: bool)
    requires b.mode == ProbeRtt
    ensures var c := ExitProbeRtt(b, f, roundStart);
      var ends := b.exitAt >= 0 && f.time >= b.exitAt && (b.roundPassed || roundStart);
      && SameSeen(b, c) && SameCheck(b, c)
      && c.mode == (if !ends then ProbeRtt else if b.full then ProbeBw else Startup)
      && (c.mode == ProbeBw ==> ProbesFrom(c, f))
      && (c.mode == ProbeRtt ==> TimerIs(b, c, f, roundStart))
  {
    TargetIsAim(b, 0.75);
    if b.exitAt >= 0 {
      var d := if roundStart then b.(roundPassed := true) else b;
      EntersProbeBw(d.(minRttAt := f.time), f);
    }
  }

  lemma ProbeRttIs(b: Bbr, f: Feedback, roundStart: bool, expired: bool)
    ensures var c := EnterOrExitProbeRtt(b, f, roundStart, expired);
      var ends := b.exitAt >= 0 && f.time >= b.exitAt && (b.roundPassed || roundStart);
      && SameSeen(b, c) && SameCheck(b, c) && !c.quiescent
      && c.mode == (if b.mode == ProbeRtt then if !ends then ProbeRtt else if b.full then ProbeBw else Startup
                    else if expired && !b.quiescent then ProbeRtt
                    else b.mode)
      && (b.mode == ProbeRtt && c.mode == ProbeBw ==> ProbesFrom(c, f))
      && (c.mode == ProbeRtt ==> TimerIs(if b.mode == ProbeRtt then b else b.(exitAt := -1), c, f, roundStart))
      && (b.mode != ProbeRtt && c.mode != ProbeRtt ==> c.offset == b.offset && c.cycleStart == b.cycleStart)
  {
    var d := EnterProbeRtt(b, expired);
    if d.mode == ProbeRtt { ExitIs(d, f, roundStart); }
  }

  /** Where a feedback leads: PROBE_RTT lasts until its end, and is entered when the minimal round-trip time has expired,
      unless the sender was quiescent; else STARTUP gives way to DRAIN, and DRAIN to PROBE_BW once the flight is down. */
  function NextMode(b: Bbr, c: Bbr, f: Feedback): Mode {
    if b.mode == ProbeRtt then if !Ends(b, f) then ProbeRtt else if c.full then ProbeBw else Startup
    else if Expires(b, f) && !b.quiescent then ProbeRtt
    else if Drains(b, c) then if f.inFlight <= Aim(c, 1.0) then ProbeBw else Drain
    else b.mode
  }

  /**
   * What a feedback has shown and found. A check for full bandwidth is made at a round start until it is found, unless
   * the last packet was sent for lack of data.
   */
  predicate Shows(b: Bbr, c: Bbr, f: Feedback) {
    && (if RoundStart(b, f) && !b.full && !c.appLimited then Checked(b, c, c.bandwidth.first.value) else SameCheck(b, c))
    && c.endRecoveryAt == LossMark(b, f)
    && c.lastRtt == (if Measures(f) then SmallestRtt(f.acks) else b.lastRtt)
    && c.appLimited == if f.acks == [] then b.appLimited else f.acks[|f.acks| - 1].appLimited
  }

  /** What a feedback makes of b: the mode, where the cycle of PROBE_BW begins, and the timer of PROBE_RTT. */
  predicate Moves(b: Bbr, c: Bbr, f: Feedback) {
    && Shows(b, c, f) && !c.quiescent
    && c.mode == NextMode(b, c, f)
    && (b.mode != ProbeBw && c.mode == ProbeBw ==> ProbesFrom(c, f))
    && (c.mode == ProbeRtt ==> TimerIs(if b.mode == ProbeRtt then b else b.(exitAt := -1), c, f, RoundStart(b, f)))
  }

  /** The same before PROBE_RTT is looked at. */
  predicate MovesBefore(b: Bbr, c: Bbr, f: Feedback) {
    && Shows(b, c, f) && SameTimer(b, c)
    && c.mode == (if Drains(b, c) then if f.inFlight <= Aim(c, 1.0) then ProbeBw else Drain else b.mode)
    && (b.mode != ProbeBw && c.mode == ProbeBw ==> ProbesFrom(c, f))
  }

  lemma BeforeMoves(b: Bbr, f: Feedback)
    ensures MovesBefore(b, BeforeProbeRtt(b, f), f)
  {
    var a, d := OnAcks(b, f).0, BeforeCheck(b, f);
    AcksShow(b, f);
    CycleKeepsSeen(a, f);
    CheckIs(d);
    LeaveIs(if Checks(b, f) then CheckFull(d) else d, f);
  }

  lemma MovesFrom(b: Bbr, c: Bbr, f: Feedback)
    requires MovesBefore(b, c, f)
    ensures Moves(b, EnterOrExitProbeRtt(c, f, RoundStart(b, f), Expires(b, f)), f)
  {
    ProbeRttIs(c, f, RoundStart(b, f), Expires(b, f));
  }

  lemma ProbeRttMoves(b: Bbr, f: Feedback)
    ensures Moves(b, AfterProbeRtt(b, f), f)
  {
    var expired := OnAcks(b, f).1;
    AcksShow(b, f);
    BeforeMoves(b, f);
    assert expired <==> Expires(b, f);
    MovesFrom(b, BeforeProbeRtt(b, f), f);
  }

  lemma MovesIgnoresWindows(b: Bbr, c: Bbr, f: Feedback, window: nat, recoveryWindow: nat)
    requires Moves(b, c, f)
    ensures Moves(b, c.(window := window, recoveryWindow := recoveryWindow), f)
  {
  }

  /** Every feedback moves the controller so, across all its transitions. */
  lemma FeedbackMovesMode(b: Bbr, f: Feedback)
    requires f.packets > 0
    ensures Moves(b, OnFeedback(b, f), f)
  {
    var a, c := AfterProbeRtt(b, f), OnFeedback(b, f);
    ProbeRttMoves(b, f);
    WindowsFrame(a, f);
    MovesIgnoresWindows(b, a, f, c.window, c.recoveryWindow);
  }

  // ---- quiescence ----

  /** A send found the sender quiescent, and no feedback came since. */
  predicate Resumes(ops: seq<Op>)
    decreases |ops|
  {
    ops != [] &&
    match ops[|ops| - 1]
    case Send(_, quiesced) => quiesced || Resumes(ops[..|ops| - 1])
    case Receive(f) => f.packets == 0 && Resumes(ops[..|ops| - 1])
  }

  lemma {:induction false} RunLast(b: Bbr, ops: seq<Op>, op: Op)
    ensures Run(b, ops + [op]) == Step(Run(b, ops), op)
    decreases |ops|
  {
    if ops == [] {
      assert ([op])[1..] == [];
      assert [] + [op] == [op];
    } else {
      assert (ops + [op])[1..] == ops[1..] + [op];
      RunLast(Step(b, ops[0]), ops[1..], op);
    }
  }

  /** Over every run the sender counts as quiescent exactly from such a send to the next feedback. */
  lemma {:induction false} QuiescentUntilFeedback(ops: seq<Op>)
    ensures Run(Start(), ops).quiescent <==> Resumes(ops)
    decreases |ops|
  {
    if ops != [] {
      var init, op := ops[..|ops| - 1], ops[|ops| - 1];
      assert ops == init + [op];
      RunLast(Start(), init, op);
      QuiescentUntilFeedback(init);
      if op.Receive? && op.feedback.packets > 0 { FeedbackMovesMode(Run(Start(), init), op.feedback); }
    }
  }
}
