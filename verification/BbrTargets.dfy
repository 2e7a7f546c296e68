// What one feedback makes of the windows and the gain cycle, in numbers (ReCapABR/bbr/bbr_controller.c).

/** The congestion and recovery windows and the gain cycle against the bandwidth-delay product. */
module BbrTargets {
  import opened BbrSteps
  import opened BbrRuns

  function Rtt(c: Bbr): int { if c.minRtt == 0 then 100 else c.minRtt }

  /** A gain times the bandwidth-delay product in whole bytes, or times 32 packets while that is 0; 4 packets at least. */
  function Aim(c: Bbr, gain: real): int {
    AimOf(Rtt(c), c.bandwidth.first.value, gain)
  }

  function AimOf(rtt: int, bandwidth: int, gain: real): int {
    var w := (gain * (rtt * bandwidth) as real).Floor;
    AtLeast(if w > 0 then w else (gain * 46720.0).Floor, 5840)
  }

  function Within(w: int): int { if w < 5840 then 5840 else if w > 2920000 then 2920000 else w }

  lemma AfterProbeRttWindow(b: Bbr, f: Feedback)
    requires ModeOk(b)
    ensures AfterProbeRtt(b, f).window == b.window
  {
    AfterProbeRttGains(b, f);
  }

  lemma TargetIsAim(b: Bbr, gain: real)
    ensures TargetWindow(b, gain) == Aim(b, gain)
  {
  }

  function NextWindow(c: Bbr, window: nat, f: Feedback): int {
    NextFrom(c.mode, c.full, Aim(c, c.windowGain), window, f)
  }

  /** The next window for a mode, with or without full bandwidth, and an aim. */
  function NextFrom(mode: Mode, full: bool, aim: int, window: nat, f: Feedback): int {
    var grown := window + f.dataAcked;
    if mode == ProbeRtt then window
    else if full then Within(AtMost(grown, aim + f.ackHeight))
    else if window < aim || f.totalAcked < 46720 then Within(grown)
    else window
  }

  lemma CalculatedIsNext(a: Bbr, f: Feedback)
    requires WindowOk(a)
    ensures CalculateWindow(a, f).window == NextWindow(a, a.window, f)
  {
    TargetIsAim(a, a.windowGain);
  }

  /**
   * The window after a feedback. At full bandwidth it grows by the bytes acked, but not beyond the aim plus the ack
   * height. Before, it grows exactly while it is below the aim or fewer bytes than 32 packets were acked in all. It
   * stays in PROBE_RTT, and within 4 and 2000 packets.
   */
  lemma FeedbackSetsWindow(b: Bbr, f: Feedback)
    requires Inv(b) && f.packets > 0
    ensures OnFeedback(b, f).window == NextWindow(OnFeedback(b, f), b.window, f)
  {
    var a := AfterProbeRtt(b, f);
    AfterProbeRttWindow(b, f);
    CalculatedIsNext(a, f);
    EndKeeps(a, f);
    NextIgnoresWindows(a, OnFeedback(b, f).window, OnFeedback(b, f).recoveryWindow, b.window, f);
  }

  lemma NextIgnoresWindows(a: Bbr, w: nat, r: nat, window: nat, f: Feedback)
    ensures NextWindow(a.(window := w, recoveryWindow := r), window, f) == NextWindow(a, window, f)
  {
    var c := a.(window := w, recoveryWindow := r);
    assert Rtt(c) == Rtt(a) && c.bandwidth == a.bandwidth;
  }

  lemma EndKeeps(a: Bbr, f: Feedback)
    ensures var c := CalculateRecoveryWindow(CalculateWindow(a, f), f);
      c == a.(window := CalculateWindow(a, f).window, recoveryWindow := c.recoveryWindow)
  {
    WindowFrame(a, f);
    RecoveryWindowFrame(CalculateWindow(a, f), f);
  }

  /** Over every run, at full bandwidth in PROBE_BW the window is at most twice the product plus the ack height. */
  lemma FullWindowIsCapped(ops: seq<Op>, f: Feedback)
    requires f.packets > 0
    ensures var c := Step(Run(Start(), ops), Receive(f));
      c.full && c.mode == ProbeBw ==> c.window <= Aim(c, 2.0) + f.ackHeight
  {
    RunKeeps(Start(), ops);
    StepKeeps(Run(Start(), ops), Receive(f));
    FeedbackSetsWindow(Run(Start(), ops), f);
  }

  /** The window the sender is told. */
  lemma EffectiveWindowIs(ops: seq<Op>)
    ensures var b := Run(Start(), ops); var w := EffectiveWindow(b);
      && (b.mode == ProbeRtt ==> w == Aim(b, 0.75))
      && (b.mode != ProbeRtt && b.recovery == NotInRecovery ==> w == b.window)
      && (b.mode != ProbeRtt && b.recovery != NotInRecovery ==>
            w <= b.window && w <= b.recoveryWindow && w in {b.window, b.recoveryWindow})
  {
  }

  /**
   * The recovery window after a feedback: set to what is in flight and acked when recovery begins, and while it lasts
   * lowered by the bytes lost, down to one packet, and raised by the bytes acked in GROWTH only. It always leaves room
   * for what is in flight and acked, and for 4 packets.
   */
  lemma FeedbackSetsRecoveryWindow(b: Bbr, f: Feedback)
    requires Inv(b) && f.packets > 0
    ensures var c := OnFeedback(b, f);
      var room := AtLeast(f.inFlight + f.dataAcked, 5840);
      var left := if b.recoveryWindow >= f.dataLost then b.recoveryWindow - f.dataLost else 1460;
      c.recoveryWindow ==
      if c.recovery == NotInRecovery then b.recoveryWindow
      else if b.recovery == NotInRecovery then room
      else AtLeast(if c.recovery == Growth then left + f.dataAcked else left, room)
  {
    var a := AfterProbeRtt(b, f);
    WindowsFrame(a, f);
    WindowFrame(a, f);
    RecoveryWindowFrame(CalculateWindow(a, f), f);
    RecoveryIsDecidedByAcks(b, f);
    RecoveryWindowAfterAcks(b, f);
  }

  lemma RecoveryWindowAfterAcks(b: Bbr, f: Feedback)
    ensures var c := OnAcks(b, f).0;
      c.recovery != NotInRecovery || b.recovery != NotInRecovery || c.recoveryWindow == b.recoveryWindow
    ensures var c := OnAcks(b, f).0;
      c.recoveryWindow == if b.recovery == NotInRecovery && c.recovery != NotInRecovery then 0 else b.recoveryWindow
  {
    if f.acks != [] {
      var c := CountRound(b, LastAcked(f));
      MeasureFrame(c, f.time, f.acks);
      MeasureKeepsRecovery(c, f.time, f.acks);
    }
  }

  // ---- the gain cycle ----

  /** When a phase of the cycle ends: after a round trip, the raising one only once the flight shows it, the draining
      one also as soon as the flight is down. */
  predicate PhaseEnds(b: Bbr, c: Bbr, f: Feedback) {
    var waited := f.time - b.cycleStart > Rtt(c);
    match b.offset
    case 0 => waited && (f.losses || f.priorInFlight >= Aim(c, 1.25))
    case 1 => waited || f.priorInFlight < Aim(c, 1.0)
    case _ => waited
  }

  function PhaseGain(offset: nat): real {
    match offset
    case 0 => 1.25
    case 1 => 0.75
    case _ => 1.0
  }

  lemma CycleIs(a: Bbr, f: Feedback)
    requires a.mode == ProbeBw && GainsOk(a)
    ensures var ends := PhaseEnds(a, a, f); var offset := if ends then (a.offset + 1) % 8 else a.offset;
      OnCycle(a, f) == a.(offset := offset, cycleStart := if ends then f.time else a.cycleStart,
                          pacingGain := PhaseGain(offset))
  {
    TargetIsAim(a, a.pacingGain);
    TargetIsAim(a, 1.0);
  }

  /** What decides about the cycle is not touched by the rest of a feedback. */
  predicate SameMeasure(a: Bbr, c: Bbr) {
    a.minRtt == c.minRtt && a.bandwidth == c.bandwidth
  }

  lemma CheckKeepsCycle(d: Bbr)
    ensures var c := CheckFull(d);
      && SameMeasure(d, c) && c.mode == d.mode
      && c.offset == d.offset && c.cycleStart == d.cycleStart && c.pacingGain == d.pacingGain
  {
  }

  lemma ProbeBwGoesOn(d: Bbr, f: Feedback, roundStart: bool, expired: bool)
    requires d.mode == ProbeBw
    ensures LeaveStartupOrDrain(d, f.time, f.inFlight, f.random) == d
    ensures var c := EnterOrExitProbeRtt(d, f, roundStart, expired);
      && SameMeasure(d, c) && c.offset == d.offset && c.cycleStart == d.cycleStart
      && c.mode in {ProbeBw, ProbeRtt} && (c.mode == ProbeBw ==> c.pacingGain == d.pacingGain)
  {
  }

  /**
   * One feedback in PROBE_BW: the cycle goes on to the next of its eight phases exactly when the present one ends, and
   * the pacing gain is that of the phase, unless PROBE_RTT begins.
   */
  lemma FeedbackMovesCycle(b: Bbr, f: Feedback)
    requires Inv(b) && b.mode == ProbeBw && f.packets > 0
    ensures var c := OnFeedback(b, f);
      && c.offset == (if PhaseEnds(b, c, f) then (b.offset + 1) % 8 else b.offset)
      && c.cycleStart == (if PhaseEnds(b, c, f) then f.time else b.cycleStart)
      && c.mode in {ProbeBw, ProbeRtt} && (c.mode == ProbeBw ==> c.pacingGain == PhaseGain(c.offset))
  {
    var a := OnAcks(b, f).0;
    OnAcksFrame(b, f);
    CycleIs(a, f);
    var d := OnCycle(a, f);
    CheckKeepsCycle(d);
    var e := if Checks(b, f) then CheckFull(d) else d;
    ProbeBwGoesOn(e, f, RoundStart(b, f), OnAcks(b, f).1);
    EndKeeps(AfterProbeRtt(b, f), f);
    SamePhase(a, b, OnFeedback(b, f), f);
  }

  lemma SamePhase(a: Bbr, b: Bbr, c: Bbr, f: Feedback)
    requires SameMeasure(a, c) && a.offset == b.offset && a.cycleStart == b.cycleStart
    ensures PhaseEnds(a, a, f) <==> PhaseEnds(b, c, f)
  {
  }
}
