// The BBR congestion controller (ReCapABR/bbr/bbr_controller.c and bbr_common.h) under its default configuration.

/** The controller as a value, and one function for each part of bbr_on_feedback. */
module BbrSteps {
  import opened WindowFilters
  import opened ProbeRttPhases

  const MSS: nat := 1460
  const MAX_PACKET: nat := 1452
  const MIN_WINDOW: nat := 4 * MSS
  const INITIAL_WINDOW: nat := 32 * MSS
  const MAX_WINDOW: nat := 2000 * MSS
  const HIGH_GAIN: real := 2.77
  const DRAIN_GAIN: real := 1.0 / 2.77
  const PROBE_GAIN: real := 2.0
  const PROBE_RTT_GAIN: real := 0.75
  const GAIN_OFFSET: real := 0.25
  const CYCLE: nat := 8
  const BANDWIDTH_ROUNDS: int := 10
  const STARTUP_ROUNDS: nat := 3
  const EXIT_STARTUP_RTT: int := 100000000
  const MIN_RTT_EXPIRY: int := 10000
  const INITIAL_RTT: int := 100

  datatype Mode = Startup | Drain | ProbeBw | ProbeRtt

  datatype Recovery = NotInRecovery | Conservation | MediumGrowth | Growth

  datatype Bbr = Bbr(
    mode: Mode, pacingGain: real, windowGain: real, offset: nat, cycleStart: int,
    full: bool, gainless: nat, lastBandwidth: int,
    window: nat, recovery: Recovery, endRecoveryAt: int, recoveryWindow: nat,
    rounds: nat, lastSent: int, roundEnd: int,
    bandwidth: Filter, minRtt: int, lastRtt: int, minRttAt: int,
    appLimited: bool, quiescent: bool, exitAt: int, roundPassed: bool)

  /** One acked packet: its number and the sample the bandwidth sampler gives for it. */
  datatype Ack = Ack(number: int, rtt: int, bandwidth: nat, appLimited: bool)

  /** What a feedback brings, with the results of the sampler, the height filter and rand() as inputs. */
  datatype Feedback = Feedback(
    time: nat, packets: nat, acks: seq<Ack>, losses: bool,
    dataAcked: nat, dataLost: nat, totalAcked: nat, inFlight: nat, priorInFlight: nat,
    ackHeight: nat, random: nat)

  function Start(): Bbr {
    Bbr(Startup, HIGH_GAIN, HIGH_GAIN, 0, 0, false, 0, 0,
        INITIAL_WINDOW, NotInRecovery, -1, MAX_WINDOW, 0, 0, 0,
        Filter(BANDWIDTH_ROUNDS, Sample(0, 0), Sample(0, 0), Sample(0, 0)), 0, 0, 0,
        false, false, -1, false)
  }

  function AtLeast(n: int, low: int): int { if n < low then low else n }

  function AtMost(n: int, high: int): int { if n > high then high else n }

  // ---- queries ----

  function Estimate(b: Bbr): int { b.bandwidth.first.value }

  function MinRtt(b: Bbr): int { if b.minRtt == 0 then INITIAL_RTT else b.minRtt }

  /** bbr_get_target_congestion_window: the gain times the bandwidth-delay product. */
  function TargetWindow(b: Bbr, gain: real): (w: int)
    ensures w >= MIN_WINDOW
  {
    var bdp := MinRtt(b) * Estimate(b);
    var w := (gain * bdp as real).Floor;
    AtLeast(if w <= 0 then (gain * INITIAL_WINDOW as real).Floor else w, MIN_WINDOW)
  }

  function ProbeRttWindow(b: Bbr): int { TargetWindow(b, PROBE_RTT_GAIN) }

  /** bbr_get_congestion_window: the window the sender is told. */
  function EffectiveWindow(b: Bbr): int {
    if b.mode == ProbeRtt then ProbeRttWindow(b)
    else if b.recovery != NotInRecovery then AtMost(b.window, b.recoveryWindow)
    else b.window
  }

  function CycleGain(offset: nat): real {
    if offset == 0 then 1.0 + GAIN_OFFSET else if offset == 1 then 1.0 - GAIN_OFFSET else 1.0
  }

  // ---- steps ----

  function EnterStartup(b: Bbr): Bbr {
    b.(mode := Startup, pacingGain := HIGH_GAIN, windowGain := HIGH_GAIN)
  }

  /** The drawn place in the cycle, which is never the one that drains. */
  function DrawnOffset(random: nat): nat {
    var r := random % (CYCLE - 1);
    if r >= 1 then r + 1 else r
  }

  function EnterProbeBw(b: Bbr, now: int, random: nat): Bbr {
    var offset := DrawnOffset(random);
    b.(mode := ProbeBw, windowGain := PROBE_GAIN, offset := offset, cycleStart := now, pacingGain := CycleGain(offset))
  }

  predicate StartsRound(b: Bbr, lastAcked: int) { lastAcked > b.roundEnd }

  function CountRound(b: Bbr, lastAcked: int): Bbr {
    if StartsRound(b, lastAcked) then b.(rounds := b.rounds + 1, roundEnd := b.lastSent) else b
  }

  /** The smallest positive round-trip time of the acked packets, or -1. */
  function SmallestRtt(acks: seq<Ack>): int {
    if acks == [] then -1
    else
      var before, r := SmallestRtt(acks[..|acks| - 1]), acks[|acks| - 1].rtt;
      if r <= 0 then before else if before == -1 then r else AtMost(r, before)
  }

  predicate RttExpired(b: Bbr, now: int) { b.minRtt > 0 && now > b.minRttAt + MIN_RTT_EXPIRY }

  function MeasureBandwidth(b: Bbr, last: Ack): Bbr {
    if !last.appLimited || last.bandwidth > Estimate(b)
    then b.(bandwidth := Updated(b.bandwidth, Max, Sample(last.bandwidth, b.rounds))) else b
  }

  function MeasureRtt(b: Bbr, now: int, rtt: int): Bbr {
    var c := b.(lastRtt := rtt);
    if RttExpired(b, now) || rtt < b.minRtt || b.minRtt <= 0
    then c.(minRtt := AtLeast(rtt, 5), minRttAt := now) else c
  }

  /** bbr_update_bandwidth_and_min_rtt: the state, and whether the minimal round-trip time had expired. */
  function Measure(b: Bbr, now: int, acks: seq<Ack>): (Bbr, bool)
    requires acks != []
  {
    var last := acks[|acks| - 1];
    var c := b.(appLimited := last.appLimited);
    var rtt := SmallestRtt(acks);
    if rtt == -1 then (c, false)
    else
      var d := MeasureBandwidth(c, last);
      (MeasureRtt(d, now, rtt), RttExpired(d, now))
  }

  function LeaveRecovery(b: Bbr, losses: bool, lastAcked: int): Bbr {
    if !losses && (b.endRecoveryAt == -1 || b.endRecoveryAt < lastAcked) then b.(recovery := NotInRecovery) else b
  }

  /** bbr_update_recovery_state; the cases fall through to the last one. */
  function UpdateRecovery(b: Bbr, lastAcked: int, losses: bool, roundStart: bool): Bbr {
    var c := if losses then b.(endRecoveryAt := lastAcked) else b;
    match c.recovery
    case NotInRecovery =>
      if losses then c.(recovery := Conservation, recoveryWindow := 0, roundEnd := lastAcked) else c
    case Growth => LeaveRecovery(c, losses, lastAcked)
    case _ => LeaveRecovery(if roundStart then c.(recovery := Growth) else c, losses, lastAcked)
  }

  /** bbr_update_gain_cycle_phase. */
  function AdvanceCycle(b: Bbr, now: int, prior: nat, losses: bool): Bbr {
    var elapsed := now - b.cycleStart > MinRtt(b);
    var probed := if b.pacingGain > 1.0 && !losses && prior < TargetWindow(b, b.pacingGain) then false else elapsed;
    var cycling := if b.pacingGain < 1.0 && prior < TargetWindow(b, 1.0) then true else probed;
    if !cycling then b
    else
      var next := (b.offset + 1) % CYCLE;
      b.(offset := next, cycleStart := now, pacingGain := CycleGain(next))
  }

  /** The estimate that counts as growth since the last round: 1.25 times the old one, rounded down. */
  function GrowthTarget(bandwidth: int): int {
    (bandwidth as real * 1.25).Floor
  }

  /** bbr_check_if_full_bandwidth_reached. */
  function CheckFull(b: Bbr): Bbr {
    if b.appLimited then b
    else if GrowthTarget(b.lastBandwidth) <= Estimate(b) then b.(lastBandwidth := Estimate(b), gainless := 0)
    else
      var c := b.(gainless := b.gainless + 1);
      if c.gainless >= STARTUP_ROUNDS || c.recovery != NotInRecovery then c.(full := true) else c
  }

  function LeaveStartup(b: Bbr): Bbr {
    if b.mode == Startup && (b.full || b.lastRtt - b.minRtt > EXIT_STARTUP_RTT)
    then b.(mode := Drain, pacingGain := DRAIN_GAIN, windowGain := DRAIN_GAIN) else b
  }

  /** bbr_maybe_exit_startup_or_drain. */
  function LeaveStartupOrDrain(b: Bbr, now: int, inFlight: nat, random: nat): Bbr {
    var c := LeaveStartup(b);
    if c.mode == Drain && inFlight <= TargetWindow(c, 1.0) then EnterProbeBw(c, now, random) else c
  }

  function EnterProbeRtt(b: Bbr, expired: bool): Bbr {
    if expired && !b.quiescent && b.mode != ProbeRtt then b.(mode := ProbeRtt, pacingGain := 1.0, exitAt := -1) else b
  }

  predicate LowFlight(b: Bbr, inFlight: nat) {
    inFlight < ProbeRttWindow(b) + MAX_PACKET
  }

  function ExitProbeRtt(b: Bbr, f: Feedback, roundStart: bool): Bbr {
    if b.exitAt < 0 then
      if LowFlight(b, f.inFlight) then b.(exitAt := f.time + PROBE_RTT_TIME, roundPassed := false) else b
    else
      var c := if roundStart then b.(roundPassed := true) else b;
      if f.time >= c.exitAt && c.roundPassed then
        var d := c.(minRttAt := f.time);
        if !d.full then EnterStartup(d) else EnterProbeBw(d, f.time, f.random)
      else c
  }

  /** bbr_maybe_enter_or_exit_probe_rtt. */
  function EnterOrExitProbeRtt(b: Bbr, f: Feedback, roundStart: bool, expired: bool): Bbr {
    var c := EnterProbeRtt(b, expired);
    var d := if c.mode == ProbeRtt then ExitProbeRtt(c, f, roundStart) else c;
    d.(quiescent := false)
  }

  /** bbr_calculate_congestion_window. */
  function CalculateWindow(b: Bbr, f: Feedback): Bbr {
    if b.mode == ProbeRtt then b
    else
      var target := TargetWindow(b, b.windowGain) + if b.full then f.ackHeight else 0;
      var grown := b.window + f.dataAcked;
      var w := if b.full then AtMost(grown, target)
               else if b.window < target || f.totalAcked < INITIAL_WINDOW then grown
               else b.window;
      b.(window := AtMost(AtLeast(w, MIN_WINDOW), MAX_WINDOW))
  }

  /** bbr_calculate_recovery_window; the comparison of the window with MEDIUM_GROWTH, which is 2, is the source's. */
  function CalculateRecoveryWindow(b: Bbr, f: Feedback): Bbr {
    if b.recovery == NotInRecovery then b
    else if b.recoveryWindow == 0 then b.(recoveryWindow := AtLeast(f.inFlight + f.dataAcked, MIN_WINDOW))
    else
      var left := if b.recoveryWindow >= f.dataLost then b.recoveryWindow - f.dataLost else MSS;
      var grown := if b.recovery == Growth then left + f.dataAcked
                   else if left == 2 then left + f.dataAcked / 2
                   else left;
      b.(recoveryWindow := AtLeast(AtLeast(grown, f.inFlight + f.dataAcked), MIN_WINDOW))
  }

  // ---- the whole of bbr_on_feedback ----

  function LastAcked(f: Feedback): int
    requires f.acks != []
  {
    f.acks[|f.acks| - 1].number
  }

  predicate RoundStart(b: Bbr, f: Feedback) {
    f.acks != [] && StartsRound(b, LastAcked(f))
  }

  /** What the acked packets change, and whether the minimal round-trip time had expired. */
  function OnAcks(b: Bbr, f: Feedback): (Bbr, bool) {
    if f.acks == [] then (b, false)
    else
      var (c, expired) := Measure(CountRound(b, LastAcked(f)), f.time, f.acks);
      (UpdateRecovery(c, LastAcked(f), f.losses, RoundStart(b, f)), expired)
  }

  function OnCycle(b: Bbr, f: Feedback): Bbr {
    if b.mode == ProbeBw then AdvanceCycle(b, f.time, f.priorInFlight, f.losses) else b
  }

  /** The state in which the check for full bandwidth is made, if it is made. */
  function BeforeCheck(b: Bbr, f: Feedback): Bbr { OnCycle(OnAcks(b, f).0, f) }

  predicate Checks(b: Bbr, f: Feedback) { RoundStart(b, f) && !b.full }

  /** The state before PROBE_RTT is looked at. */
  function BeforeProbeRtt(b: Bbr, f: Feedback): Bbr {
    var c := BeforeCheck(b, f);
    LeaveStartupOrDrain(if Checks(b, f) then CheckFull(c) else c, f.time, f.inFlight, f.random)
  }

  function AfterProbeRtt(b: Bbr, f: Feedback): Bbr {
    EnterOrExitProbeRtt(BeforeProbeRtt(b, f), f, RoundStart(b, f), OnAcks(b, f).1)
  }

  /** bbr_on_feedback. */
  function OnFeedback(b: Bbr, f: Feedback): Bbr {
    if f.packets == 0 then b
    else CalculateRecoveryWindow(CalculateWindow(AfterProbeRtt(b, f), f), f)
  }

  /** bbr_on_send_packet. */
  function OnSend(b: Bbr, number: int, quiesced: bool): Bbr {
    b.(lastSent := number, quiescent := b.quiescent || quiesced)
  }
}

/** The timing of a PROBE_RTT phase: what the state keeps of it and what the feedbacks say. */
module ProbeRttPhases {
  const PROBE_RTT_TIME: int := 200

  datatype Phase = Phase(probing: bool, exitAt: int, passed: bool)

  datatype Event = Quiet | Seen(low: bool, round: bool, time: nat)

  predicate Timer(e: Event, q: Phase)
    requires e.Seen?
  {
    q.probing && if e.low then q.exitAt == e.time + PROBE_RTT_TIME && !q.passed else q.exitAt < 0
  }

  /** One step: a phase may begin, waits for a low flight, then for its time and for a round start. */
  predicate Move(p: Phase, e: Event, q: Phase) {
    if e.Quiet? then q == p
    else if !p.probing then q.probing ==> Timer(e, q)
    else if p.exitAt < 0 then Timer(e, q)
    else
      var passed := p.passed || e.round;
      if e.time >= p.exitAt && passed then !q.probing else q == Phase(true, p.exitAt, passed)
  }

  ghost predicate Moves(ps: seq<Phase>, es: seq<Event>) {
    |ps| == |es| + 1 && !ps[0].probing && forall i :: 0 <= i < |es| ==> Move(ps[i], es[i], ps[i + 1])
  }

  predicate LowAt(es: seq<Event>, i: nat) { i < |es| && es[i].Seen? && es[i].low }

  predicate RoundAt(es: seq<Event>, i: nat) { i < |es| && es[i].Seen? && es[i].round }

  /** All phases after step i up to j are in PROBE_RTT. */
  ghost predicate Throughout(ps: seq<Phase>, i: nat, j: nat) {
    j < |ps| && forall m :: i < m <= j ==> ps[m].probing
  }

  /** No step of the phase that leads to i found the flight low. */
  ghost predicate NoLowBefore(ps: seq<Phase>, es: seq<Event>, i: nat) {
    forall m: nat :: m < i && Throughout(ps, m, i) ==> !LowAt(es, m)
  }

  ghost predicate RoundWithin(es: seq<Event>, i: nat, j: nat) {
    exists k :: i < k < j && RoundAt(es, k)
  }

  /** Step i found the flight low for the first time in the phase, which lasts to j. */
  ghost predicate FirstLow(ps: seq<Phase>, es: seq<Event>, i: nat, j: nat) {
    i < j && LowAt(es, i) && Throughout(ps, i, j) && NoLowBefore(ps, es, i)
  }

  /** The phase that ends with step j: 200 ms since the first low flight i, and a round start after it. */
  ghost predicate Lasted(ps: seq<Phase>, es: seq<Event>, i: nat, j: nat)
    requires j < |es|
  {
    && FirstLow(ps, es, i, j)
    && es[j].Seen? && es[j].time >= es[i].time + PROBE_RTT_TIME
    && RoundWithin(es, i, j + 1)
  }

  /** The account that the state after j steps keeps. */
  ghost predicate Timed(ps: seq<Phase>, es: seq<Event>, i: nat, j: nat) {
    && FirstLow(ps, es, i, j) && ps[j].exitAt == es[i].time + PROBE_RTT_TIME
    && (ps[j].passed ==> RoundWithin(es, i, j))
  }

  ghost predicate PhaseOk(ps: seq<Phase>, es: seq<Event>, j: nat)
    requires j < |ps|
  {
    ps[j].probing ==> if ps[j].exitAt < 0 then NoLowBefore(ps, es, j) else exists i: nat :: Timed(ps, es, i, j)
  }

  lemma NoLowNext(ps: seq<Phase>, es: seq<Event>, j: nat)
    requires Moves(ps, es) && j < |es| && !LowAt(es, j) && (ps[j].probing ==> NoLowBefore(ps, es, j))
    ensures NoLowBefore(ps, es, j + 1)
  {
  }

  lemma PhaseStarts(ps: seq<Phase>, es: seq<Event>, j: nat)
    requires Moves(ps, es) && j < |es| && LowAt(es, j) && (ps[j].probing ==> NoLowBefore(ps, es, j))
    requires Timer(es[j], ps[j + 1])
    ensures Timed(ps, es, j, j + 1)
  {
  }

  lemma PhaseGoesOn(ps: seq<Phase>, es: seq<Event>, i: nat, j: nat)
    requires Moves(ps, es) && j < |es| && Timed(ps, es, i, j) && ps[j + 1].probing
    requires ps[j + 1].exitAt == ps[j].exitAt
    requires ps[j + 1].passed ==> ps[j].passed || RoundAt(es, j)
    ensures Timed(ps, es, i, j + 1)
  {
  }

  lemma RoundNext(es: seq<Event>, i: nat, j: nat, before: bool)
    requires i < j && (if before then RoundWithin(es, i, j) else RoundAt(es, j))
    ensures RoundWithin(es, i, j + 1)
  {
  }

  lemma {:induction false} PhaseKeeps(ps: seq<Phase>, es: seq<Event>, j: nat)
    requires Moves(ps, es) && j < |ps|
    ensures PhaseOk(ps, es, j)
  {
    if j > 0 {
      PhaseKeeps(ps, es, j - 1);
      PhaseStep(ps, es, j - 1);
    }
  }

  lemma PhaseStep(ps: seq<Phase>, es: seq<Event>, j: nat)
    requires Moves(ps, es) && j < |es| && PhaseOk(ps, es, j)
    ensures PhaseOk(ps, es, j + 1)
  {
    assert Move(ps[j], es[j], ps[j + 1]);
    if ps[j + 1].probing {
      if ps[j].probing && ps[j].exitAt >= 0 {
        var i: nat :| Timed(ps, es, i, j);
        PhaseGoesOn(ps, es, i, j);
      } else if LowAt(es, j) {
        PhaseStarts(ps, es, j);
      } else {
        NoLowNext(ps, es, j);
      }
    }
  }

  lemma PhaseLasts(ps: seq<Phase>, es: seq<Event>, j: nat)
    requires Moves(ps, es) && j < |es| && ps[j].probing && !ps[j + 1].probing
    ensures exists i: nat :: Lasted(ps, es, i, j)
  {
    PhaseKeeps(ps, es, j);
    assert Move(ps[j], es[j], ps[j + 1]);
    var i: nat :| Timed(ps, es, i, j);
    RoundNext(es, i, j, ps[j].passed);
    assert Lasted(ps, es, i, j);
  }
}

/** What holds over every run of sends and feedbacks. */
module BbrRuns {
  import opened BbrSteps
  import opened ProbeRttPhases

  datatype Op = Send(number: int, quiesced: bool) | Receive(feedback: Feedback)

  function Step(b: Bbr, op: Op): Bbr {
    match op
    case Send(n, q) => OnSend(b, n, q)
    case Receive(f) => OnFeedback(b, f)
  }

  function Run(b: Bbr, ops: seq<Op>): Bbr
    decreases |ops|
  {
    if ops == [] then b else Run(Step(b, ops[0]), ops[1..])
  }

  // ---- windows and gains ----

  /** The congestion window is within its bounds. */
  predicate WindowOk(b: Bbr) { MIN_WINDOW <= b.window <= MAX_WINDOW }

  predicate RecoveryOk(b: Bbr) { b.recoveryWindow >= MIN_WINDOW }

  /** Gains and cycle offset agree with the mode; only STARTUP implies that full bandwidth was not reached. */
  predicate GainsOk(b: Bbr) {
    match b.mode
    case Startup => b.pacingGain == HIGH_GAIN && b.windowGain == HIGH_GAIN
    case Drain => b.pacingGain == DRAIN_GAIN && b.windowGain == DRAIN_GAIN
    case ProbeBw => b.offset < CYCLE && b.pacingGain == CycleGain(b.offset) && b.windowGain == PROBE_GAIN
    case ProbeRtt => b.pacingGain == 1.0 && b.windowGain in {HIGH_GAIN, DRAIN_GAIN, PROBE_GAIN}
  }

  predicate Inv(b: Bbr) {
    WindowOk(b) && RecoveryOk(b) && GainsOk(b) && (b.mode == Startup ==> !b.full)
  }

  /** The recovery window is unchanged, or zero to be set at the end of the feedback. */
  predicate RecoveryFrame(b: Bbr, c: Bbr) {
    c.recoveryWindow == b.recoveryWindow || (c.recoveryWindow == 0 && c.recovery != NotInRecovery)
  }

  predicate SameRecovery(b: Bbr, c: Bbr) { c.recovery == b.recovery && c.recoveryWindow == b.recoveryWindow }

  /** What acked packets do not touch. */
  predicate SameControl(b: Bbr, c: Bbr) {
    && c.mode == b.mode && c.pacingGain == b.pacingGain && c.windowGain == b.windowGain && c.offset == b.offset
    && c.full == b.full && c.gainless == b.gainless && c.lastBandwidth == b.lastBandwidth && c.window == b.window
    && c.exitAt == b.exitAt && c.roundPassed == b.roundPassed && c.quiescent == b.quiescent
    && c.cycleStart == b.cycleStart
  }

  lemma MeasureRttFrame(b: Bbr, now: int, rtt: int)
    ensures var c := MeasureRtt(b, now, rtt); c == b.(lastRtt := rtt, minRtt := c.minRtt, minRttAt := c.minRttAt)
  {
  }

  lemma MeasureFrame(b: Bbr, now: int, acks: seq<Ack>)
    requires acks != []
    ensures var c := Measure(b, now, acks).0;
      SameControl(b, c) && c.recoveryWindow == b.recoveryWindow && c.recovery == b.recovery
  {
    var last := acks[|acks| - 1];
    var d := MeasureBandwidth(b.(appLimited := last.appLimited), last);
    assert SameControl(b, d);
    MeasureRttFrame(d, now, SmallestRtt(acks));
  }

  lemma UpdateRecoveryFrame(b: Bbr, lastAcked: int, losses: bool, roundStart: bool)
    ensures var c := UpdateRecovery(b, lastAcked, losses, roundStart);
      && SameControl(b, c) && RecoveryFrame(b, c)
      && c.minRtt == b.minRtt && c.lastRtt == b.lastRtt
  {
  }

  lemma OnAcksFrame(b: Bbr, f: Feedback)
    ensures SameControl(b, OnAcks(b, f).0) && RecoveryFrame(b, OnAcks(b, f).0)
  {
    if f.acks != [] {
      var c := CountRound(b, LastAcked(f));
      MeasureFrame(c, f.time, f.acks);
      UpdateRecoveryFrame(Measure(c, f.time, f.acks).0, LastAcked(f), f.losses, RoundStart(b, f));
    }
  }

  lemma CycleFrame(b: Bbr, f: Feedback)
    requires GainsOk(b)
    ensures var c := OnCycle(b, f);
      && GainsOk(c)
      && c == b.(offset := c.offset, cycleStart := c.cycleStart, pacingGain := c.pacingGain)
  {
  }

  lemma BeforeCheckGains(b: Bbr, f: Feedback)
    requires GainsOk(b)
    ensures var c := BeforeCheck(b, f);
      && GainsOk(c) && c.mode == b.mode && c.full == b.full && c.window == b.window && RecoveryFrame(b, c)
      && c.exitAt == b.exitAt && c.roundPassed == b.roundPassed
  {
    OnAcksFrame(b, f);
    CycleFrame(OnAcks(b, f).0, f);
  }

  /** CheckFull only keeps the growth of the bandwidth on record. */
  lemma CheckFrame(b: Bbr)
    ensures var c := CheckFull(b);
      c == b.(full := c.full, gainless := c.gainless, lastBandwidth := c.lastBandwidth) && (b.full ==> c.full)
  {
  }

  predicate ModeOk(b: Bbr) { GainsOk(b) && (b.mode == Startup ==> !b.full) }

  lemma EnterProbeBwGains(b: Bbr, now: int, random: nat)
    ensures var c := EnterProbeBw(b, now, random); ModeOk(c) && c.mode == ProbeBw && c.offset != 1
  {
  }

  /** Leaving STARTUP or DRAIN: the mode moves only forward, and PROBE_BW is entered with a good offset. */
  lemma LeaveFrame(b: Bbr, now: int, inFlight: nat, random: nat)
    requires GainsOk(b)
    ensures var c := LeaveStartupOrDrain(b, now, inFlight, random);
      && ModeOk(c) && c.full == b.full && c.window == b.window && SameRecovery(b, c)
      && c.exitAt == b.exitAt && c.roundPassed == b.roundPassed
      && (b.mode == ProbeRtt ==> c == b)
      && (c.mode == ProbeBw && b.mode != ProbeBw ==> c.offset != 1)
      && (c.mode == b.mode || (b.mode in {Startup, Drain} && c.mode in {Drain, ProbeBw}))
  {
  }

  lemma BeforeProbeRttGains(b: Bbr, f: Feedback)
    requires ModeOk(b)
    ensures var c := BeforeProbeRtt(b, f);
      && ModeOk(c) && c.window == b.window && RecoveryFrame(b, c)
      && c.exitAt == b.exitAt && c.roundPassed == b.roundPassed
      && (b.mode == ProbeRtt <==> c.mode == ProbeRtt)
      && (c.mode == ProbeBw && b.mode != ProbeBw ==> c.offset != 1)
  {
    BeforeCheckGains(b, f);
    var c := BeforeCheck(b, f);
    CheckFrame(c);
    var d := if Checks(b, f) then CheckFull(c) else c;
    LeaveFrame(d, f.time, f.inFlight, f.random);
  }

  lemma ExitFrame(b: Bbr, f: Feedback, roundStart: bool)
    requires GainsOk(b) && b.mode == ProbeRtt
    ensures var c := ExitProbeRtt(b, f, roundStart);
      && ModeOk(c) && c.full == b.full && c.window == b.window && SameRecovery(b, c)
      && (c.mode == ProbeBw ==> c.offset != 1)
  {
    EnterProbeBwGains(b.(roundPassed := true, minRttAt := f.time), f.time, f.random);
    EnterProbeBwGains(b.(minRttAt := f.time), f.time, f.random);
  }

  lemma AfterProbeRttGains(b: Bbr, f: Feedback)
    requires ModeOk(b)
    ensures var c := AfterProbeRtt(b, f);
      && ModeOk(c) && c.window == b.window && RecoveryFrame(b, c)
      && (c.mode == ProbeBw && b.mode != ProbeBw ==> c.offset != 1)
  {
    BeforeProbeRttGains(b, f);
    EnterOrExitFrame(BeforeProbeRtt(b, f), f, RoundStart(b, f), OnAcks(b, f).1);
  }

  lemma EnterOrExitFrame(b: Bbr, f: Feedback, roundStart: bool, expired: bool)
    requires ModeOk(b)
    ensures var c := EnterOrExitProbeRtt(b, f, roundStart, expired);
      && ModeOk(c) && c.window == b.window && SameRecovery(b, c)
      && (c.mode == ProbeBw && b.mode != ProbeBw ==> c.offset != 1)
  {
    var c := EnterProbeRtt(b, expired);
    assert GainsOk(c) && c.window == b.window && SameRecovery(b, c);
    if c.mode == ProbeRtt { ExitFrame(c, f, roundStart); }
  }

  lemma WindowFrame(b: Bbr, f: Feedback)
    ensures CalculateWindow(b, f) == b.(window := CalculateWindow(b, f).window)
  {
  }

  lemma RecoveryWindowFrame(b: Bbr, f: Feedback)
    ensures CalculateRecoveryWindow(b, f) == b.(recoveryWindow := CalculateRecoveryWindow(b, f).recoveryWindow)
  {
  }

  /** The end of a feedback touches nothing but the two windows. */
  lemma WindowsFrame(b: Bbr, f: Feedback)
    ensures var c := CalculateRecoveryWindow(CalculateWindow(b, f), f);
      c == b.(window := c.window, recoveryWindow := c.recoveryWindow)
  {
    WindowFrame(b, f);
    RecoveryWindowFrame(CalculateWindow(b, f), f);
  }

  lemma WindowsOk(b: Bbr, f: Feedback)
    requires b.window >= MIN_WINDOW && b.window <= MAX_WINDOW
    requires b.recoveryWindow >= MIN_WINDOW || (b.recoveryWindow == 0 && b.recovery != NotInRecovery)
    ensures var c := CalculateRecoveryWindow(CalculateWindow(b, f), f);
      && WindowOk(c) && RecoveryOk(c)
      && c == b.(window := c.window, recoveryWindow := c.recoveryWindow)
  {
    WindowsFrame(b, f);
  }

  lemma StepKeeps(b: Bbr, op: Op)
    requires Inv(b)
    ensures Inv(Step(b, op))
  {
    if op.Receive? && op.feedback.packets > 0 {
      AfterProbeRttGains(b, op.feedback);
      WindowsOk(AfterProbeRtt(b, op.feedback), op.feedback);
    }
  }

  /** Every run keeps the window bounds and the agreement of gains and mode. */
  lemma {:induction false} RunKeeps(b: Bbr, ops: seq<Op>)
    requires Inv(b)
    ensures Inv(Run(b, ops))
    decreases |ops|
  {
    if ops != [] {
      StepKeeps(b, ops[0]);
      RunKeeps(Step(b, ops[0]), ops[1..]);
    }
  }

  /** The window the sender is told is never below the minimum, and outside PROBE_RTT never above the maximum. */
  lemma EffectiveWindowIsBounded(ops: seq<Op>)
    ensures var b := Run(Start(), ops);
      EffectiveWindow(b) >= MIN_WINDOW && (b.mode != ProbeRtt ==> EffectiveWindow(b) <= MAX_WINDOW)
  {
    RunKeeps(Start(), ops);
  }

  lemma CalculatedWindowMoves(b: Bbr, f: Feedback)
    requires WindowOk(b)
    ensures var c := CalculateWindow(b, f);
      && c.window <= b.window + f.dataAcked
      && (!b.full ==> c.window >= b.window)
      && (b.mode == ProbeRtt ==> c.window == b.window)
  {
  }

  /** One feedback raises the window by at most the bytes it acks, and never lowers it before full bandwidth. */
  lemma FeedbackMovesWindow(b: Bbr, f: Feedback)
    requires Inv(b)
    ensures var c := OnFeedback(b, f);
      && c.window <= b.window + f.dataAcked
      && (!c.full ==> c.window >= b.window)
      && (c.mode == ProbeRtt ==> c.window == b.window)
  {
    if f.packets > 0 {
      AfterProbeRttGains(b, f);
      CalculatedWindowMoves(AfterProbeRtt(b, f), f);
      WindowsFrame(AfterProbeRtt(b, f), f);
      WindowFrame(AfterProbeRtt(b, f), f);
      RecoveryWindowFrame(CalculateWindow(AfterProbeRtt(b, f), f), f);
    }
  }

  function AckedBytes(ops: seq<Op>): nat {
    if ops == [] then 0 else (if ops[0].Receive? then ops[0].feedback.dataAcked else 0) + AckedBytes(ops[1..])
  }

  /** Over every run the window never exceeds what it started with plus all bytes acked. */
  lemma {:induction false} WindowGrowsByAcks(b: Bbr, ops: seq<Op>)
    requires Inv(b)
    ensures Run(b, ops).window <= b.window + AckedBytes(ops)
    decreases |ops|
  {
    if ops != [] {
      StepKeeps(b, ops[0]);
      if ops[0].Receive? { FeedbackMovesWindow(b, ops[0].feedback); }
      WindowGrowsByAcks(Step(b, ops[0]), ops[1..]);
    }
  }

  /** In recovery the window leaves room for what is in flight and acked, and only GROWTH adds acked bytes to it. */
  lemma RecoveryWindowMoves(b: Bbr, f: Feedback)
    requires b.recovery != NotInRecovery && b.recoveryWindow >= MIN_WINDOW
    ensures var w := CalculateRecoveryWindow(b, f).recoveryWindow; var room := f.inFlight + f.dataAcked;
      && w >= room
      && w <= AtLeast(AtLeast(b.recoveryWindow + f.dataAcked, room), MIN_WINDOW)
      && (b.recovery != Growth && f.dataLost + 2 < b.recoveryWindow ==>
            w == AtLeast(AtLeast(b.recoveryWindow - f.dataLost, room), MIN_WINDOW))
  {
  }

  /** After the acks nothing but the end of the feedback touches the recovery. */
  lemma RecoveryIsDecidedByAcks(b: Bbr, f: Feedback)
    requires ModeOk(b)
    ensures SameRecovery(OnAcks(b, f).0, AfterProbeRtt(b, f))
  {
    OnAcksFrame(b, f);
    CycleFrame(OnAcks(b, f).0, f);
    var c := BeforeCheck(b, f);
    CheckFrame(c);
    var d := if Checks(b, f) then CheckFull(c) else c;
    LeaveFrame(d, f.time, f.inFlight, f.random);
    EnterOrExitFrame(BeforeProbeRtt(b, f), f, RoundStart(b, f), OnAcks(b, f).1);
  }

  lemma AcksDecideRecovery(b: Bbr, f: Feedback)
    requires f.acks != []
    ensures var c := OnAcks(b, f).0.recovery;
      && (b.recovery == NotInRecovery ==> c == if f.losses then Conservation else NotInRecovery)
      && (b.recovery != NotInRecovery ==>
            (c == NotInRecovery <==> !f.losses && (b.endRecoveryAt == -1 || b.endRecoveryAt < LastAcked(f)))
            && (c != NotInRecovery ==> c == if RoundStart(b, f) then Growth else b.recovery))
  {
    var c := Measure(CountRound(b, LastAcked(f)), f.time, f.acks).0;
    MeasureKeepsRecovery(CountRound(b, LastAcked(f)), f.time, f.acks);
  }

  lemma MeasureKeepsRecovery(b: Bbr, now: int, acks: seq<Ack>)
    requires acks != []
    ensures var c := Measure(b, now, acks).0; c.recovery == b.recovery && c.endRecoveryAt == b.endRecoveryAt
  {
  }

  /** Recovery is entered exactly by a feedback with losses, and left exactly by one without that acks beyond them. */
  lemma RecoveryMoves(b: Bbr, f: Feedback)
    requires Inv(b) && f.packets > 0 && f.acks != []
    ensures var c := OnFeedback(b, f).recovery;
      && (b.recovery == NotInRecovery ==> c == if f.losses then Conservation else NotInRecovery)
      && (b.recovery != NotInRecovery ==>
            (c == NotInRecovery <==> !f.losses && (b.endRecoveryAt == -1 || b.endRecoveryAt < LastAcked(f)))
            && (c != NotInRecovery ==> c == if RoundStart(b, f) then Growth else b.recovery))
  {
    AcksDecideRecovery(b, f);
    RecoveryIsDecidedByAcks(b, f);
    WindowsFrame(AfterProbeRtt(b, f), f);
  }

  lemma StepSkipsMediumGrowth(b: Bbr, op: Op)
    requires Inv(b) && b.recovery != MediumGrowth
    ensures Step(b, op).recovery != MediumGrowth
  {
    if op.Receive? && op.feedback.packets > 0 {
      var f := op.feedback;
      RecoveryIsDecidedByAcks(b, f);
      WindowsFrame(AfterProbeRtt(b, f), f);
      if f.acks != [] { AcksDecideRecovery(b, f); }
    }
  }

  /** The state MEDIUM_GROWTH is never reached. */
  lemma {:induction false} MediumGrowthIsDead(b: Bbr, ops: seq<Op>)
    requires Inv(b) && b.recovery != MediumGrowth
    ensures Run(b, ops).recovery != MediumGrowth
    decreases |ops|
  {
    if ops != [] {
      StepKeeps(b, ops[0]);
      StepSkipsMediumGrowth(b, ops[0]);
      MediumGrowthIsDead(Step(b, ops[0]), ops[1..]);
    }
  }

  /** PROBE_BW is never entered in the draining phase of its cycle. */
  lemma ProbeBwIsNotEnteredDraining(b: Bbr, f: Feedback)
    requires Inv(b) && b.mode != ProbeBw && OnFeedback(b, f).mode == ProbeBw
    ensures OnFeedback(b, f).offset != 1 && OnFeedback(b, f).pacingGain >= 1.0
  {
    AfterProbeRttGains(b, f);
  }

  /** States and operations of a run from the start. */
  ghost predicate Execution(tr: seq<Bbr>, ops: seq<Op>) {
    |tr| == |ops| + 1 && tr[0] == Start() && forall i :: 0 <= i < |ops| ==> tr[i + 1] == Step(tr[i], ops[i])
  }

  lemma {:induction false} TraceKeeps(tr: seq<Bbr>, ops: seq<Op>, j: nat)
    requires Execution(tr, ops) && j < |tr|
    ensures Inv(tr[j])
  {
    if j > 0 {
      TraceKeeps(tr, ops, j - 1);
      StepKeeps(tr[j - 1], ops[j - 1]);
    }
  }

  // ---- how long PROBE_RTT lasts ----

  predicate Counts(op: Op) { op.Receive? && op.feedback.packets > 0 }

  function PhaseOf(b: Bbr): Phase { Phase(b.mode == ProbeRtt, b.exitAt, b.roundPassed) }

  /** What an operation says: is the flight low, does a round start, and when. */
  function EventOf(b: Bbr, op: Op): Event {
    if !Counts(op) then Quiet
    else
      var f := op.feedback;
      Seen(LowFlight(BeforeProbeRtt(b, f), f.inFlight), RoundStart(b, f), f.time)
  }

  lemma ProbeRttMoves(b: Bbr, f: Feedback, roundStart: bool, expired: bool)
    ensures var c := EnterOrExitProbeRtt(b, f, roundStart, expired);
      Move(PhaseOf(b), Seen(LowFlight(b, f.inFlight), roundStart, f.time), PhaseOf(c))
  {
  }

  /** What one operation does to a PROBE_RTT phase. */
  lemma StepMoves(b: Bbr, op: Op)
    requires ModeOk(b)
    ensures Move(PhaseOf(b), EventOf(b, op), PhaseOf(Step(b, op)))
  {
    if Counts(op) {
      var f := op.feedback;
      BeforeProbeRttGains(b, f);
      ProbeRttMoves(BeforeProbeRtt(b, f), f, RoundStart(b, f), OnAcks(b, f).1);
      WindowsFrame(AfterProbeRtt(b, f), f);
    }
  }

  function Phases(tr: seq<Bbr>): (ps: seq<Phase>)
    ensures |ps| == |tr| && forall i :: 0 <= i < |tr| ==> ps[i] == PhaseOf(tr[i])
  {
    seq(|tr|, i requires 0 <= i < |tr| => PhaseOf(tr[i]))
  }

  function Events(tr: seq<Bbr>, ops: seq<Op>): (es: seq<Event>)
    requires |tr| == |ops| + 1
    ensures |es| == |ops| && forall i :: 0 <= i < |ops| ==> es[i] == EventOf(tr[i], ops[i])
  {
    seq(|ops|, i requires 0 <= i < |ops| => EventOf(tr[i], ops[i]))
  }

  lemma ExecutionMoves(tr: seq<Bbr>, ops: seq<Op>)
    requires Execution(tr, ops)
    ensures Moves(Phases(tr), Events(tr, ops))
  {
    forall i | 0 <= i < |ops| ensures Move(PhaseOf(tr[i]), EventOf(tr[i], ops[i]), PhaseOf(tr[i + 1])) {
      TraceKeeps(tr, ops, i);
      StepMoves(tr[i], ops[i]);
    }
  }

  /** PROBE_RTT is left only by a feedback 200 ms after the flight was first low, and after a new round began. */
  lemma LeavingProbeRtt(tr: seq<Bbr>, ops: seq<Op>, j: nat)
    requires Execution(tr, ops) && j < |ops| && tr[j].mode == ProbeRtt && tr[j + 1].mode != ProbeRtt
    ensures Counts(ops[j])
    ensures exists i: nat :: Lasted(Phases(tr), Events(tr, ops), i, j)
  {
    ExecutionMoves(tr, ops);
    PhaseLasts(Phases(tr), Events(tr, ops), j);
  }
}

/** STARTUP ends after a bounded number of checks for full bandwidth. */
module BbrStartup {
  import opened BbrSteps
  import opened BbrRuns

  /** How often an estimate that starts at bandwidth and stays at most top can grow by a quarter. */
  function Gains(bandwidth: int, top: int): nat
    requires bandwidth >= 4
    decreases top - bandwidth
  {
    if bandwidth + bandwidth / 4 > top then 0 else 1 + Gains(bandwidth + bandwidth / 4, top)
  }

  lemma {:induction false} GainsFall(x: int, y: int, top: int)
    requires 4 <= x <= y
    ensures Gains(y, top) <= Gains(x, top)
    decreases top - x
  {
    if y + y / 4 <= top { GainsFall(x + x / 4, y + y / 4, top); }
  }

  /** The bound is at most linear in the highest estimate, because each gain is at least one. */
  lemma {:induction false} GainsAreFew(x: int, top: int)
    requires 4 <= x <= top
    ensures Gains(x, top) <= top - x
    decreases top - x
  {
    if x + x / 4 <= top { GainsAreFew(x + x / 4, top); }
  }

  lemma TargetIsQuarterMore(n: int)
    ensures GrowthTarget(n) == n + n / 4
  {
    var r := n as real * 1.25;
    var k := n + n / 4;
    assert n == 4 * (n / 4) + n % 4;
    assert r == (5 * n) as real / 4.0;
    assert 4 * k <= 5 * n < 4 * (k + 1);
    assert k as real <= r < (k + 1) as real;
  }

  /** The checks that can still be made without reaching full bandwidth, plus one. The first check always gains. */
  function ChecksLeft(b: Bbr, top: int): int
    requires b.lastBandwidth == 0 || b.lastBandwidth >= 4
  {
    if b.lastBandwidth == 0 then 1 + STARTUP_ROUNDS + STARTUP_ROUNDS * Gains(4, top)
    else STARTUP_ROUNDS - b.gainless + STARTUP_ROUNDS * Gains(b.lastBandwidth, top)
  }

  /** The record of growth while full bandwidth is not reached. */
  predicate GrowthOk(b: Bbr) {
    (b.lastBandwidth == 0 || b.lastBandwidth >= 4) && (!b.full ==> b.gainless < STARTUP_ROUNDS)
  }

  lemma CheckSpends(b: Bbr, top: int)
    requires GrowthOk(b) && !b.full && !b.appLimited && 4 <= Estimate(b) <= top
    ensures var c := CheckFull(b); GrowthOk(c) && (c.full || ChecksLeft(c, top) < ChecksLeft(b, top))
  {
    TargetIsQuarterMore(b.lastBandwidth);
    var target := b.lastBandwidth + b.lastBandwidth / 4;
    if target <= Estimate(b) {
      if b.lastBandwidth == 0 {
        GainsFall(4, Estimate(b), top);
      } else {
        GainsFall(target, Estimate(b), top);
      }
    }
  }

  // ---- checks in a run ----

  /** The operation starts a round that was not short of data: a check for full bandwidth, if that is still open. */
  predicate MakesCheck(b: Bbr, op: Op) {
    Counts(op) && RoundStart(b, op.feedback) && !BeforeCheck(b, op.feedback).appLimited
  }

  function ChecksMade(b: Bbr, ops: seq<Op>): nat
    decreases |ops|
  {
    if ops == [] then 0
    else (if MakesCheck(b, ops[0]) then 1 else 0) + ChecksMade(Step(b, ops[0]), ops[1..])
  }

  predicate EstimateWithin(b: Bbr, op: Op, top: int) {
    MakesCheck(b, op) && !b.full ==> 4 <= Estimate(BeforeCheck(b, op.feedback)) <= top
  }

  predicate EstimatesWithin(b: Bbr, ops: seq<Op>, top: int)
    decreases |ops|
  {
    ops == [] || (EstimateWithin(b, ops[0], top) && EstimatesWithin(Step(b, ops[0]), ops[1..], top))
  }

  /** Only the check changes the record of growth. */
  predicate SameGrowth(b: Bbr, c: Bbr) {
    c.full == b.full && c.gainless == b.gainless && c.lastBandwidth == b.lastBandwidth
  }

  lemma BeforeCheckGrowth(b: Bbr, f: Feedback)
    ensures SameGrowth(b, BeforeCheck(b, f))
  {
    OnAcksFrame(b, f);
  }

  lemma AfterCheckGrowth(b: Bbr, f: Feedback, roundStart: bool, expired: bool)
    ensures var c := LeaveStartupOrDrain(b, f.time, f.inFlight, f.random);
      SameGrowth(b, EnterOrExitProbeRtt(c, f, roundStart, expired))
  {
    assert SameGrowth(b, LeaveStartupOrDrain(b, f.time, f.inFlight, f.random));
  }

  lemma FeedbackGrowth(b: Bbr, f: Feedback)
    requires f.packets > 0
    ensures var c := BeforeCheck(b, f);
      SameGrowth(b, c) && SameGrowth(if Checks(b, f) then CheckFull(c) else c, OnFeedback(b, f))
  {
    BeforeCheckGrowth(b, f);
    var c := BeforeCheck(b, f);
    AfterCheckGrowth(if Checks(b, f) then CheckFull(c) else c, f, RoundStart(b, f), OnAcks(b, f).1);
    WindowsFrame(AfterProbeRtt(b, f), f);
  }

  lemma StepSpends(b: Bbr, op: Op, top: int)
    requires GrowthOk(b) && !b.full && EstimateWithin(b, op, top)
    ensures var c := Step(b, op);
      && GrowthOk(c)
      && (c.full || ChecksLeft(c, top) + (if MakesCheck(b, op) then 1 else 0) <= ChecksLeft(b, top))
  {
    if Counts(op) {
      var f := op.feedback;
      FeedbackGrowth(b, f);
      if MakesCheck(b, op) { CheckSpends(BeforeCheck(b, f), top); }
    }
  }

  lemma StepStaysFull(b: Bbr, op: Op)
    requires b.full
    ensures Step(b, op).full
  {
    if Counts(op) { FeedbackGrowth(b, op.feedback); }
  }

  /** Full bandwidth, once reached, stays. */
  lemma {:induction false} FullStays(b: Bbr, ops: seq<Op>)
    requires b.full
    ensures Run(b, ops).full
    decreases |ops|
  {
    if ops != [] {
      StepStaysFull(b, ops[0]);
      FullStays(Step(b, ops[0]), ops[1..]);
    }
  }

  lemma {:induction false} RunSpends(b: Bbr, ops: seq<Op>, top: int)
    requires GrowthOk(b) && !b.full && EstimatesWithin(b, ops, top)
    ensures Run(b, ops).full || ChecksMade(b, ops) < ChecksLeft(b, top)
    decreases |ops|
  {
    if ops != [] {
      var c := Step(b, ops[0]);
      StepSpends(b, ops[0], top);
      if c.full { FullStays(c, ops[1..]); } else { RunSpends(c, ops[1..], top); }
    }
  }

  /**
   * While full bandwidth is open, let each round that is not short of data begin with an estimate in 4..top.
   * After 4 + 3 * Gains(4, top) such rounds full bandwidth is reached, and STARTUP is over.
   */
  lemma StartupEnds(ops: seq<Op>, top: int)
    requires EstimatesWithin(Start(), ops, top) && ChecksMade(Start(), ops) >= 4 + 3 * Gains(4, top)
    ensures Run(Start(), ops).full && Run(Start(), ops).mode != Startup
  {
    RunSpends(Start(), ops, top);
    RunKeeps(Start(), ops);
  }

  // ---- the bound is reached ----

  function OneAck(n: nat, bandwidth: nat): Feedback {
    Feedback(n, 1, [Ack(n, INITIAL_RTT, bandwidth, false)], false, 0, 0, 0, 0, 0, 0, 0)
  }

  /** A round of one packet, sent and acked. */
  function Round(n: nat, bandwidth: nat): seq<Op> {
    [Send(n, false), Receive(OneAck(n, bandwidth))]
  }

  predicate Ready(b: Bbr, n: nat, bandwidth: nat) {
    b.roundEnd < n && b.recovery == NotInRecovery && Estimate(b) <= bandwidth
  }

  lemma OneAckMeasures(b: Bbr, n: nat, bandwidth: nat)
    requires Ready(b, n, bandwidth) && b.lastSent == n
    ensures var c := BeforeCheck(b, OneAck(n, bandwidth));
      && Estimate(c) == bandwidth && !c.appLimited && c.recovery == NotInRecovery && c.roundEnd == n
      && SameGrowth(b, c)
  {
    var f := OneAck(n, bandwidth);
    BeforeCheckGrowth(b, f);
    assert f.acks[..0] == [];
    assert SmallestRtt(f.acks) == INITIAL_RTT;
  }

  /** What the checks for modes leave alone. */
  predicate SameRound(b: Bbr, c: Bbr) {
    c.recovery == b.recovery && c.roundEnd == b.roundEnd && c.bandwidth == b.bandwidth
  }

  lemma LeaveKeepsRound(b: Bbr, now: int, inFlight: nat, random: nat)
    ensures SameRound(b, LeaveStartupOrDrain(b, now, inFlight, random))
  {
    assert SameRound(b, LeaveStartup(b));
  }

  lemma ExitKeepsRound(b: Bbr, f: Feedback, roundStart: bool)
    ensures SameRound(b, ExitProbeRtt(b, f, roundStart))
  {
  }

  lemma AfterCheckKeepsRound(b: Bbr, f: Feedback, roundStart: bool, expired: bool)
    ensures SameRound(b, EnterOrExitProbeRtt(LeaveStartupOrDrain(b, f.time, f.inFlight, f.random), f, roundStart, expired))
  {
    LeaveKeepsRound(b, f.time, f.inFlight, f.random);
    ExitKeepsRound(EnterProbeRtt(LeaveStartupOrDrain(b, f.time, f.inFlight, f.random), expired), f, roundStart);
  }

  lemma RunOne(b: Bbr, op: Op)
    ensures Run(b, [op]) == Step(b, op) && ChecksMade(b, [op]) == if MakesCheck(b, op) then 1 else 0
  {
    assert [op][1..] == [];
  }

  lemma RoundChecks(b: Bbr, n: nat, bandwidth: nat, top: int)
    requires Ready(b, n, bandwidth) && 4 <= bandwidth <= top
    ensures var c := Run(b, Round(n, bandwidth));
      && ChecksMade(b, Round(n, bandwidth)) == 1
      && Ready(c, n + 1, bandwidth)
      && (!b.full && GrowthTarget(b.lastBandwidth) <= bandwidth
          ==> !c.full && c.gainless == 0 && c.lastBandwidth == bandwidth)
      && (!b.full && GrowthTarget(b.lastBandwidth) > bandwidth && b.gainless + 1 < STARTUP_ROUNDS
          ==> !c.full && c.gainless == b.gainless + 1 && c.lastBandwidth == b.lastBandwidth)
    ensures EstimatesWithin(b, Round(n, bandwidth), top)
  {
    var sent, f := OnSend(b, n, false), OneAck(n, bandwidth);
    assert Round(n, bandwidth)[0] == Send(n, false) && Round(n, bandwidth)[1..] == [Receive(f)];
    RunOne(sent, Receive(f));
    OneAckMeasures(sent, n, bandwidth);
    FeedbackGrowth(sent, f);
    var c := BeforeCheck(sent, f);
    AfterCheckKeepsRound(if Checks(sent, f) then CheckFull(c) else c, f, RoundStart(sent, f), OnAcks(sent, f).1);
  }

  lemma {:induction false} Join(b: Bbr, p: seq<Op>, q: seq<Op>, top: int)
    requires EstimatesWithin(b, p, top) && EstimatesWithin(Run(b, p), q, top)
    ensures Run(b, p + q) == Run(Run(b, p), q)
    ensures ChecksMade(b, p + q) == ChecksMade(b, p) + ChecksMade(Run(b, p), q)
    ensures EstimatesWithin(b, p + q, top)
    decreases |p|
  {
    if p == [] {
      assert p + q == q;
    } else {
      assert (p + q)[1..] == p[1..] + q;
      Join(Step(b, p[0]), p[1..], q, top);
    }
  }

  /** Three rounds at one bandwidth: a gain and two rounds without. */
  lemma Landing(b: Bbr, n: nat, bandwidth: nat, top: int) returns (ops: seq<Op>)
    requires Ready(b, n, bandwidth) && 4 <= bandwidth <= top
    requires !b.full && GrowthTarget(b.lastBandwidth) <= bandwidth
    ensures EstimatesWithin(b, ops, top) && ChecksMade(b, ops) == 3
    ensures var c := Run(b, ops); Ready(c, n + 3, bandwidth) && !c.full && c.lastBandwidth == bandwidth
  {
    TargetIsQuarterMore(bandwidth);
    var r0, r1, r2 := Round(n, bandwidth), Round(n + 1, bandwidth), Round(n + 2, bandwidth);
    RoundChecks(b, n, bandwidth, top);
    var c := Run(b, r0);
    RoundChecks(c, n + 1, bandwidth, top);
    var d := Run(c, r1);
    RoundChecks(d, n + 2, bandwidth, top);
    Join(c, r1, r2, top);
    Join(b, r0, r1 + r2, top);
    ops := r0 + (r1 + r2);
  }

  /** A bandwidth that stays for three rounds and then grows by just a quarter. */
  lemma {:induction false} Staircase(b: Bbr, n: nat, bandwidth: nat, top: int) returns (ops: seq<Op>, m: nat)
    requires Ready(b, n, bandwidth) && 4 <= bandwidth <= top
    requires !b.full && GrowthTarget(b.lastBandwidth) <= bandwidth
    ensures EstimatesWithin(b, ops, top) && ChecksMade(b, ops) == 3 + 3 * Gains(bandwidth, top)
    ensures !Run(b, ops).full && Ready(Run(b, ops), m, top)
    decreases top - bandwidth
  {
    ops := Landing(b, n, bandwidth, top);
    m := n + 3;
    var next := bandwidth + bandwidth / 4;
    if next <= top {
      TargetIsQuarterMore(bandwidth);
      var c := Run(b, ops);
      var rest, k := Staircase(c, m, next, top);
      Join(b, ops, rest, top);
      ops, m := ops + rest, k;
    }
  }

  /** The bound is the least: some run makes all but one of the checks without full bandwidth, and then the last. */
  lemma BoundIsReached(top: nat) returns (ops: seq<Op>, last: seq<Op>)
    requires top >= 4
    ensures ChecksMade(Start(), ops) == 3 + 3 * Gains(4, top) && !Run(Start(), ops).full
    ensures EstimatesWithin(Start(), ops + last, top)
    ensures ChecksMade(Start(), ops + last) == 4 + 3 * Gains(4, top)
  {
    TargetIsQuarterMore(0);
    var m;
    ops, m := Staircase(Start(), 1, 4, top);
    last := Round(m, top);
    RoundChecks(Run(Start(), ops), m, top, top);
    Join(Start(), ops, last, top);
  }

  // ---- leaving STARTUP ----

  /** The round-trip times do not trigger the other way out of STARTUP. */
  predicate RttsBelow(op: Op) {
    op.Receive? ==> forall i :: 0 <= i < |op.feedback.acks| ==> op.feedback.acks[i].rtt <= EXIT_STARTUP_RTT
  }

  predicate RttOk(b: Bbr) { b.minRtt >= 0 && b.lastRtt <= EXIT_STARTUP_RTT }

  /** DRAIN and PROBE_BW imply that full bandwidth was reached. */
  predicate LeftWhenFull(b: Bbr) { RttOk(b) && (b.mode in {Drain, ProbeBw} ==> b.full) }

  lemma {:induction false} SmallestBelow(acks: seq<Ack>, high: int)
    requires high >= 0 && forall i :: 0 <= i < |acks| ==> acks[i].rtt <= high
    ensures SmallestRtt(acks) <= high
  {
    if acks != [] { SmallestBelow(acks[..|acks| - 1], high); }
  }

  lemma AcksKeepRtt(b: Bbr, f: Feedback)
    requires LeftWhenFull(b) && RttsBelow(Receive(f))
    ensures LeftWhenFull(OnAcks(b, f).0)
  {
    OnAcksFrame(b, f);
    SmallestBelow(f.acks, EXIT_STARTUP_RTT);
    if f.acks != [] {
      var c := CountRound(b, LastAcked(f));
      MeasureKeepsRtt(c, f.time, f.acks);
      UpdateRecoveryFrame(Measure(c, f.time, f.acks).0, LastAcked(f), f.losses, RoundStart(b, f));
    }
  }

  lemma MeasureKeepsRtt(b: Bbr, now: int, acks: seq<Ack>)
    requires RttOk(b) && acks != [] && SmallestRtt(acks) <= EXIT_STARTUP_RTT
    ensures RttOk(Measure(b, now, acks).0)
  {
  }

  lemma LeavingNeedsFull(b: Bbr, now: int, inFlight: nat, random: nat)
    requires LeftWhenFull(b)
    ensures LeftWhenFull(LeaveStartupOrDrain(b, now, inFlight, random))
  {
  }

  lemma ProbeRttNeedsFull(b: Bbr, f: Feedback, roundStart: bool, expired: bool)
    requires LeftWhenFull(b)
    ensures LeftWhenFull(EnterOrExitProbeRtt(b, f, roundStart, expired))
  {
    assert LeftWhenFull(EnterProbeRtt(b, expired));
  }

  lemma StepNeedsFull(b: Bbr, op: Op)
    requires Inv(b) && LeftWhenFull(b) && RttsBelow(op)
    ensures LeftWhenFull(Step(b, op))
  {
    if Counts(op) {
      var f := op.feedback;
      OnAcksFrame(b, f);
      AcksKeepRtt(b, f);
      CycleFrame(OnAcks(b, f).0, f);
      var c := BeforeCheck(b, f);
      CheckFrame(c);
      var d := if Checks(b, f) then CheckFull(c) else c;
      LeavingNeedsFull(d, f.time, f.inFlight, f.random);
      ProbeRttNeedsFull(BeforeProbeRtt(b, f), f, RoundStart(b, f), OnAcks(b, f).1);
      WindowsFrame(AfterProbeRtt(b, f), f);
    }
  }

  predicate AllRttsBelow(ops: seq<Op>) { forall i :: 0 <= i < |ops| ==> RttsBelow(ops[i]) }

  lemma {:induction false} RunNeedsFull(b: Bbr, ops: seq<Op>)
    requires Inv(b) && LeftWhenFull(b) && AllRttsBelow(ops)
    ensures LeftWhenFull(Run(b, ops))
    decreases |ops|
  {
    if ops != [] {
      assert RttsBelow(ops[0]);
      StepKeeps(b, ops[0]);
      StepNeedsFull(b, ops[0]);
      RunNeedsFull(Step(b, ops[0]), ops[1..]);
    }
  }

  /** While round-trip times stay below the exit threshold, PROBE_RTT aside STARTUP lasts exactly until full bandwidth. */
  lemma StartupIffNotFull(ops: seq<Op>)
    requires AllRttsBelow(ops)
    ensures var b := Run(Start(), ops); b.mode != ProbeRtt ==> (b.mode == Startup <==> !b.full)
  {
    RunKeeps(Start(), ops);
    RunNeedsFull(Start(), ops);
  }

  // ---- a constant estimate ----

  function Repeated(b: Bbr, n: nat): Bbr
    decreases n
  {
    if n == 0 || b.full then b else Repeated(CheckFull(b), n - 1)
  }

  /** With an unchanging estimate, full bandwidth is reached if and only if the estimate is at least 4. */
  lemma ConstantEstimate(b: Bbr, n: nat)
    requires !b.full && !b.appLimited && b.recovery == NotInRecovery && b.lastBandwidth == 0 && b.gainless == 0
    requires Estimate(b) >= 0 && n >= 4
    ensures Repeated(b, n).full <==> Estimate(b) >= 4
  {
    TargetIsQuarterMore(0);
    var c := CheckFull(b);
    assert c == b.(lastBandwidth := Estimate(b));
    TargetIsQuarterMore(Estimate(b));
    if Estimate(b) >= 4 {
      var d := CheckFull(c);
      var e := CheckFull(d);
      assert CheckFull(e).full;
      assert Repeated(CheckFull(e), n - 4).full;
      assert Repeated(e, n - 3).full && Repeated(d, n - 2).full && Repeated(c, n - 1).full;
    } else {
      NeverFull(c, n - 1);
    }
  }

  lemma {:induction false} NeverFull(b: Bbr, n: nat)
    requires !b.full && !b.appLimited && b.gainless == 0 && b.lastBandwidth == Estimate(b) && 0 <= Estimate(b) < 4
    ensures !Repeated(b, n).full
    decreases n
  {
    if n > 0 {
      TargetIsQuarterMore(Estimate(b));
      assert CheckFull(b) == b;
      NeverFull(b, n - 1);
    }
  }
}

/** The controller object, updated in place. */
module BbrControllers {
  import BbrRuns
  import opened WindowFilters
  import opened WindowedFilters
  import opened BbrSteps

  class BbrController {
    var mode: Mode
    var pacingGain: real
    var windowGain: real
    var offset: nat
    var cycleStart: int
    var full: bool
    var gainless: nat
    var lastBandwidth: int
    var window: nat
    var recovery: Recovery
    var endRecoveryAt: int
    var recoveryWindow: nat
    var rounds: nat
    var lastSent: int
    var roundEnd: int
    const bandwidth: WindowedFilter
    var minRtt: int
    var lastRtt: int
    var minRttAt: int
    var appLimited: bool
    var quiescent: bool
    var exitAt: int
    var roundPassed: bool

    ghost predicate Valid()
      reads this, bandwidth
    {
      bandwidth.Valid() && bandwidth.order == Max
    }

    ghost function Abs(): Bbr
      reads this, bandwidth, bandwidth.estimates
      requires Valid()
    {
      Bbr(mode, pacingGain, windowGain, offset, cycleStart, full, gainless, lastBandwidth,
          window, recovery, endRecoveryAt, recoveryWindow, rounds, lastSent, roundEnd,
          bandwidth.Abs(), minRtt, lastRtt, minRttAt, appLimited, quiescent, exitAt, roundPassed)
    }

    /** bbr_create, with the reset it ends in. */
    constructor ()
      ensures Valid() && Abs() == BbrSteps.Start()
      ensures fresh(bandwidth) && fresh(bandwidth.estimates)
    {
      bandwidth := new WindowedFilter(BANDWIDTH_ROUNDS, Max);
      mode, pacingGain, windowGain := Startup, HIGH_GAIN, HIGH_GAIN;
      offset, cycleStart, full, gainless, lastBandwidth := 0, 0, false, 0, 0;
      window, recovery, endRecoveryAt, recoveryWindow := INITIAL_WINDOW, NotInRecovery, -1, MAX_WINDOW;
      rounds, lastSent, roundEnd, minRtt, lastRtt, minRttAt := 0, 0, 0, 0, 0, 0;
      appLimited, quiescent, exitAt, roundPassed := false, false, -1, false;
    }

    method GetTargetWindow(gain: real) returns (w: int)
      requires Valid()
      ensures w == TargetWindow(Abs(), gain)
    {
      var rtt := if minRtt == 0 then INITIAL_RTT else minRtt;
      var bdp := rtt * bandwidth.estimates[0].value;
      w := (gain * bdp as real).Floor;
      if w <= 0 {
        w := (gain * INITIAL_WINDOW as real).Floor;
      }
      if w < MIN_WINDOW {
        w := MIN_WINDOW;
      }
    }

    method GetWindow() returns (w: int)
      requires Valid()
      ensures w == EffectiveWindow(Abs())
    {
      if mode == ProbeRtt {
        w := GetTargetWindow(PROBE_RTT_GAIN);
        return;
      }
      if recovery != NotInRecovery && recoveryWindow < window {
        return recoveryWindow;
      }
      return window;
    }

    method OnSendPacket(number: int, quiesced: bool)
      requires Valid()
      modifies this`lastSent, this`quiescent
      ensures Valid() && Abs() == OnSend(old(Abs()), number, quiesced)
    {
      lastSent := number;
      if quiesced {
        quiescent := true;
      }
    }

    method UpdateRoundTripCounter(lastAcked: int) returns (roundStart: bool)
      requires Valid()
      modifies this`rounds, this`roundEnd
      ensures Valid() && Abs() == CountRound(old(Abs()), lastAcked) && roundStart == StartsRound(old(Abs()), lastAcked)
    {
      roundStart := lastAcked > roundEnd;
      if roundStart {
        rounds := rounds + 1;
        roundEnd := lastSent;
      }
    }

    /** The loop over the acked packets. */
    method ScanAcks(acks: seq<Ack>) returns (rtt: int, last: Ack)
      requires acks != []
      ensures rtt == SmallestRtt(acks) && last == acks[|acks| - 1]
    {
      rtt := -1;
      last := acks[0];
      for i := 0 to |acks|
        invariant rtt == SmallestRtt(acks[..i])
        invariant i > 0 ==> last == acks[i - 1]
      {
        last := acks[i];
        if last.rtt > 0 {
          rtt := if rtt == -1 || last.rtt < rtt then last.rtt else rtt;
        }
        assert acks[..i + 1][..i] == acks[..i];
      }
      assert acks[..|acks|] == acks;
    }

    method UpdateBandwidthAndMinRtt(now: int, acks: seq<Ack>) returns (expired: bool)
      requires Valid() && acks != []
      modifies this, bandwidth.estimates
      ensures Valid() && (Abs(), expired) == Measure(old(Abs()), now, acks)
    {
      var rtt, last := ScanAcks(acks);
      appLimited := last.appLimited;
      if rtt == -1 {
        return false;
      }
      if !last.appLimited || last.bandwidth > bandwidth.estimates[0].value {
        bandwidth.Update(last.bandwidth, rounds);
      }
      expired := UpdateMinRtt(now, rtt);
    }

    method UpdateMinRtt(now: int, rtt: int) returns (expired: bool)
      requires Valid()
      modifies this`lastRtt, this`minRtt, this`minRttAt
      ensures Valid() && Abs() == MeasureRtt(old(Abs()), now, rtt) && expired == RttExpired(old(Abs()), now)
    {
      lastRtt := rtt;
      expired := minRtt > 0 && now > minRttAt + MIN_RTT_EXPIRY;
      if expired || rtt < minRtt || minRtt <= 0 {
        minRtt := if rtt < 5 then 5 else rtt;
        minRttAt := now;
      }
    }

    method UpdateRecoveryState(lastAcked: int, losses: bool, roundStart: bool)
      requires Valid()
      modifies this`recovery, this`endRecoveryAt, this`recoveryWindow, this`roundEnd
      ensures Valid() && Abs() == UpdateRecovery(old(Abs()), lastAcked, losses, roundStart)
    {
      if losses {
        endRecoveryAt := lastAcked;
      }
      if recovery == NotInRecovery {
        if losses {
          recovery := Conservation;
          recoveryWindow := 0;
          roundEnd := lastAcked;
        }
      } else {
        MoveRecovery(lastAcked, losses, roundStart);
      }
    }

    /** The cases of an automaton in recovery, which fall through to the last one. */
    method MoveRecovery(lastAcked: int, losses: bool, roundStart: bool)
      requires Valid()
      modifies this`recovery
      ensures Valid()
      ensures var b := old(Abs());
        Abs() == LeaveRecovery(if b.recovery != Growth && roundStart then b.(recovery := Growth) else b, losses, lastAcked)
    {
      if recovery != Growth && roundStart {
        recovery := Growth;
      }
      if !losses && (endRecoveryAt == -1 || endRecoveryAt < lastAcked) {
        recovery := NotInRecovery;
      }
    }

    method UpdateGainCyclePhase(now: int, prior: nat, losses: bool)
      requires Valid()
      modifies this`offset, this`cycleStart, this`pacingGain
      ensures Valid() && Abs() == AdvanceCycle(old(Abs()), now, prior, losses)
    {
      var cycling := now - cycleStart > if minRtt == 0 then INITIAL_RTT else minRtt;
      var probing := GetTargetWindow(pacingGain);
      var drained := GetTargetWindow(1.0);
      if pacingGain > 1.0 && !losses && prior < probing {
        cycling := false;
      }
      if pacingGain < 1.0 && prior < drained {
        cycling := true;
      }
      if cycling {
        offset := (offset + 1) % CYCLE;
        cycleStart := now;
        pacingGain := CycleGain(offset);
      }
    }

    method CheckIfFullBandwidthReached()
      requires Valid()
      modifies this`lastBandwidth, this`gainless, this`full
      ensures Valid() && Abs() == CheckFull(old(Abs()))
    {
      if appLimited {
        return;
      }
      var target := (lastBandwidth as real * 1.25).Floor;
      if target <= bandwidth.estimates[0].value {
        lastBandwidth := bandwidth.estimates[0].value;
        gainless := 0;
      } else {
        gainless := gainless + 1;
        if gainless >= STARTUP_ROUNDS || recovery != NotInRecovery {
          full := true;
        }
      }
    }

    method EnterStartupMode()
      requires Valid()
      modifies this`mode, this`pacingGain, this`windowGain
      ensures Valid() && Abs() == EnterStartup(old(Abs()))
    {
      mode, pacingGain, windowGain := Startup, HIGH_GAIN, HIGH_GAIN;
    }

    static method DrawOffset(random: nat) returns (start: nat)
      ensures start == DrawnOffset(random)
    {
      start := random % (CYCLE - 1);
      if start >= 1 {
        start := start + 1;
      }
    }

    method EnterProbeBandwidthMode(now: int, random: nat)
      requires Valid()
      modifies this`mode, this`pacingGain, this`windowGain, this`offset, this`cycleStart
      ensures Valid() && Abs() == EnterProbeBw(old(Abs()), now, random)
    {
      var start := DrawOffset(random);
      mode, windowGain, offset, cycleStart := ProbeBw, PROBE_GAIN, start, now;
      pacingGain := CycleGain(start);
    }

    method MaybeExitStartupOrDrain(now: int, inFlight: nat, random: nat)
      requires Valid()
      modifies this`mode, this`pacingGain, this`windowGain, this`offset, this`cycleStart
      ensures Valid() && Abs() == LeaveStartupOrDrain(old(Abs()), now, inFlight, random)
    {
      if mode == Startup && (full || lastRtt - minRtt > EXIT_STARTUP_RTT) {
        mode, pacingGain, windowGain := Drain, DRAIN_GAIN, DRAIN_GAIN;
      }
      var target := GetTargetWindow(1.0);
      if mode == Drain && inFlight <= target {
        EnterProbeBandwidthMode(now, random);
      }
    }

    method MaybeExitProbeRtt(f: Feedback, roundStart: bool)
      requires Valid()
      modifies this`mode, this`pacingGain, this`windowGain, this`offset, this`cycleStart
      modifies this`exitAt, this`roundPassed, this`minRttAt
      ensures Valid() && Abs() == ExitProbeRtt(old(Abs()), f, roundStart)
    {
      if exitAt < 0 {
        var low := GetTargetWindow(PROBE_RTT_GAIN);
        if f.inFlight < low + MAX_PACKET {
          exitAt := f.time + 200;
          roundPassed := false;
        }
      } else {
        if roundStart {
          roundPassed := true;
        }
        if f.time >= exitAt && roundPassed {
          minRttAt := f.time;
          if !full {
            EnterStartupMode();
          } else {
            EnterProbeBandwidthMode(f.time, f.random);
          }
        }
      }
    }

    method MaybeEnterOrExitProbeRtt(f: Feedback, roundStart: bool, expired: bool)
      requires Valid()
      modifies this
      ensures Valid() && Abs() == EnterOrExitProbeRtt(old(Abs()), f, roundStart, expired)
    {
      MaybeEnterProbeRtt(expired);
      if mode == ProbeRtt {
        MaybeExitProbeRtt(f, roundStart);
      }
      quiescent := false;
    }

    method MaybeEnterProbeRtt(expired: bool)
      requires Valid()
      modifies this`mode, this`pacingGain, this`exitAt
      ensures Valid() && Abs() == EnterProbeRtt(old(Abs()), expired)
    {
      if expired && !quiescent && mode != ProbeRtt {
        mode, pacingGain, exitAt := ProbeRtt, 1.0, -1;
      }
    }

    method CalculateCongestionWindow(f: Feedback)
      requires Valid()
      modifies this`window
      ensures Valid() && Abs() == CalculateWindow(old(Abs()), f)
    {
      if mode == ProbeRtt {
        return;
      }
      var target := GetTargetWindow(windowGain);
      if full {
        target := target + f.ackHeight;
        window := if target < window + f.dataAcked then target else window + f.dataAcked;
      } else if window < target || f.totalAcked < INITIAL_WINDOW {
        window := window + f.dataAcked;
      }
      if window < MIN_WINDOW {
        window := MIN_WINDOW;
      }
      if window > MAX_WINDOW {
        window := MAX_WINDOW;
      }
    }

    method CalculateRecoveryWindowNow(f: Feedback)
      requires Valid()
      modifies this`recoveryWindow
      ensures Valid() && Abs() == CalculateRecoveryWindow(old(Abs()), f)
    {
      if recovery == NotInRecovery {
        return;
      }
      if recoveryWindow == 0 {
        recoveryWindow := f.inFlight + f.dataAcked;
        recoveryWindow := if recoveryWindow < MIN_WINDOW then MIN_WINDOW else recoveryWindow;
        return;
      }
      recoveryWindow := if recoveryWindow >= f.dataLost then recoveryWindow - f.dataLost else MSS;
      if recovery == Growth {
        recoveryWindow := recoveryWindow + f.dataAcked;
      } else if recoveryWindow == 2 {
        recoveryWindow := recoveryWindow + f.dataAcked / 2;
      }
      if recoveryWindow < f.inFlight + f.dataAcked {
        recoveryWindow := f.inFlight + f.dataAcked;
      }
      if recoveryWindow < MIN_WINDOW {
        recoveryWindow := MIN_WINDOW;
      }
    }

    method HandleAcks(f: Feedback) returns (roundStart: bool, expired: bool)
      requires Valid()
      modifies this, bandwidth.estimates
      ensures Valid() && (Abs(), expired) == OnAcks(old(Abs()), f) && roundStart == RoundStart(old(Abs()), f)
    {
      roundStart, expired := false, false;
      if |f.acks| > 0 {
        var lastAcked := f.acks[|f.acks| - 1].number;
        roundStart := UpdateRoundTripCounter(lastAcked);
        expired := UpdateBandwidthAndMinRtt(f.time, f.acks);
        UpdateRecoveryState(lastAcked, f.losses, roundStart);
      }
    }

    /** bbr_on_feedback: the order of the transitions. */
    method Receive(f: Feedback)
      requires Valid()
      modifies this, bandwidth.estimates
      ensures Valid() && Abs() == OnFeedback(old(Abs()), f)
    {
      if f.packets == 0 {
        return;
      }
      ghost var b := Abs();
      var roundStart, expired := HandleAcks(f);
      OnlyAcksKeepFull(b, f);
      if mode == ProbeBw {
        UpdateGainCyclePhase(f.time, f.priorInFlight, f.losses);
      }
      assert Abs() == BeforeCheck(b, f);
      if roundStart && !full {
        CheckIfFullBandwidthReached();
      }
      MaybeExitStartupOrDrain(f.time, f.inFlight, f.random);
      assert Abs() == BeforeProbeRtt(b, f);
      MaybeEnterOrExitProbeRtt(f, roundStart, expired);
      CalculateCongestionWindow(f);
      CalculateRecoveryWindowNow(f);
    }
  }

  lemma OnlyAcksKeepFull(b: Bbr, f: Feedback)
    ensures BeforeCheck(b, f).full == b.full
  {
    BbrRuns.OnAcksFrame(b, f);
  }
}
