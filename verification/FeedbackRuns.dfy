// When the BBR receiver reports and what its reports say, in every run (ReCapABR/bbr/bbr_receiver.c).

/** Every packet of a run: what is accepted, when the cache is sent, and how each arrival is reported. */
module FeedbackRuns {
  import opened Wrappers
  import opened SortedEntries
  import opened Unwrapping
  import opened LossWindows
  import opened FeedbackCodec
  import opened FeedbackBatches
  import R = BbrReceiverRuns

  const FRESH: R.Trace := R.Trace(R.Fresh(), [], [])

  /** The number is in the cache. */
  predicate Waits(cache: Arrivals, number: int) {
    exists i :: 0 <= i < |cache| && cache[i].key == number
  }

  // ---- what the messages of a flush say ----

  function Samplers(ms: seq<Message>): seq<Sampler> {
    if ms == [] then [] else ms[0].samplers + Samplers(ms[1..])
  }

  /** How long ago an arrival was, in the 16 bits there are for it; never negative. */
  function Age(time: int, now: int): nat {
    if time < now then (now - time) % 65536 else 0
  }

  predicate SaysArrival(s: Sampler, e: Entry<int, int>, now: int) {
    s.number == e.key % 65536 && s.delta == Age(e.val, now)
  }

  predicate SaysArrivals(samplers: seq<Sampler>, cache: Arrivals, now: int) {
    |samplers| == |cache| && forall i :: 0 <= i < |cache| ==> SaysArrival(samplers[i], cache[i], now)
  }

  /** A message carries the loss report, if there is one. */
  predicate SaysLoss(m: Message, report: Option<Report>) {
    if report.None? then m.flag == 2
    else m.flag == 3 && m.fraction as int == report.value.fraction && m.packets == report.value.number
  }

  predicate Says(ms: seq<Message>, cache: Arrivals, now: int, report: Option<Report>) {
    SaysArrivals(Samplers(ms), cache, now) && forall i :: 0 <= i < |ms| ==> SaysLoss(ms[i], report)
  }

  lemma SaysJoined(a: seq<Sampler>, b: seq<Sampler>, c: Arrivals, d: Arrivals, now: int)
    requires SaysArrivals(a, c, now) && SaysArrivals(b, d, now)
    ensures SaysArrivals(a + b, c + d, now)
  {
  }

  lemma {:induction false} MessagesSay(groups: seq<Arrivals>, now: int, report: Option<Report>)
    requires ReportFits(report)
    ensures Says(MessagesOf(groups, now, report), Joined(groups), now, report)
  {
    if groups != [] {
      MessagesSay(groups[1..], now, report);
      var m, rest := MessageOf(groups[0], now, report), MessagesOf(groups[1..], now, report);
      var ms := MessagesOf(groups, now, report);
      assert ms == [m] + rest && ms[1..] == rest;
      SaysJoined(m.samplers, Samplers(rest), groups[0], Joined(groups[1..]), now);
      forall i | 0 <= i < |ms| ensures SaysLoss(ms[i], report) { assert i > 0 ==> ms[i] == rest[i - 1]; }
    }
  }

  lemma FlushSays(r: R.Receiver, now: int)
    ensures var (z, ms) := R.Flushed(r, now);
      && z == r.(feedbackTs := now, loss := Calculated(r.loss, now).0, cache := [])
      && Says(ms, r.cache, now, Calculated(r.loss, now).1)
  {
    R.ReportAlwaysFits(r.loss, now);
    MessagesSay(Groups(r.cache), now, Calculated(r.loss, now).1);
    GroupsPartition(r.cache);
  }

  /** The loss report reaches the reader of the message, whatever it held before. */
  lemma ReportTravels(g: Arrivals, now: int, report: Report, m0: Message)
    requires ReportFits(Some(report)) && GroupOk(g)
    ensures var m := MessageOf(g, now, Some(report));
      && FeedbackCodec.Ok(m) && SaysLoss(Decode(Encode(m), m0), Some(report))
      && Decode(Encode(m), m0).samplers == m.samplers
  {
    RoundTrip(MessageOf(g, now, Some(report)), m0);
  }

  /** Without a report the reader keeps what it knew. */
  lemma SilenceTravels(g: Arrivals, now: int, m0: Message)
    requires GroupOk(g)
    ensures var m := MessageOf(g, now, None);
      && FeedbackCodec.Ok(m)
      && Decode(Encode(m), m0) == Message(2, m0.fraction, m0.packets, m.samplers)
  {
    RoundTrip(MessageOf(g, now, None), m0);
  }

  // ---- one packet ----

  /** The cache gains one arrival and stays in order. */
  ghost predicate Adds(before: Arrivals, after: Arrivals, e: Entry<int, int>) {
    Sorted(Order, after) && |after| == |before| + 1 && multiset(after) == multiset(before) + multiset{e}
  }

  lemma RefusedIffWaits(r: R.Receiver, number: int)
    requires Sorted(Order, r.cache) && AllWithin(r.cache, 0, r.maxSeq)
    ensures R.Refused(r, number) <==> Waits(r.cache, number)
  {
    var m := LowerBound(Order, r.cache, number);
    if i :| 0 <= i < |r.cache| && r.cache[i].key == number {
      assert KeyAt(r.cache, i, 0, r.maxSeq);
      assert Below(Order, r.cache, m, i);
    }
  }

  lemma CachedAdds(r: R.Receiver, number: int, now: int)
    requires Sorted(Order, r.cache) && AllWithin(r.cache, 0, r.maxSeq) && r.maxSeq >= -1
    requires (r.baseSeq == -1 <==> r.maxSeq == -1) && number >= 0 && !R.Refused(r, number)
    ensures var c := R.Cached(r, number, now);
      c == r.(maxSeq := c.maxSeq, baseSeq := c.baseSeq, cache := c.cache) && Adds(r.cache, c.cache, Entry(number, now))
  {
    R.CachedKeeps(r, number, now);
    if r.maxSeq == -1 { assert r.cache == [] by { assert KeyAt(r.cache, 0, 0, -1); } }
    if r.maxSeq < number { R.NewIsAbsent(r.cache, r.maxSeq, number); }
    var m := LowerBound(Order, r.cache, number);
    assert r.cache == r.cache[..m] + r.cache[m..];
  }

  /** The cache is sent with its sixteenth arrival, or with a third once ten milliseconds passed since it last was. */
  predicate Sends(r: R.Receiver, now: int) {
    |r.cache| + 1 >= 16 || (|r.cache| + 1 > 2 && now > r.feedbackTs + 10)
  }

  /**
   * What becomes of a number after the statistics and the unwrapper have seen it. It is refused exactly while it is in
   * the cache. Otherwise it joins the cache, and the cache is sent exactly when it is due: each arrival with its age, and
   * each message with the loss report, if there is one.
   */
  ghost predicate Handles(r: R.Receiver, z: R.Receiver, number: int, now: int, cache: Arrivals, news: seq<Message>) {
    if Waits(r.cache, number) then z == r && news == []
    else
      && Adds(r.cache, cache, Entry(number, now)) && z.last == r.last
      && if Sends(r, now)
         then && z.cache == [] && z.feedbackTs == now && z.loss == Calculated(r.loss, now).0
              && Says(news, cache, now, Calculated(r.loss, now).1)
         else z.cache == cache && z.feedbackTs == r.feedbackTs && z.loss == r.loss && news == []
  }

  lemma NumberIsHandled(r: R.Receiver, number: int, now: int) returns (cache: Arrivals)
    requires Sorted(Order, r.cache) && AllWithin(r.cache, 0, r.maxSeq) && r.maxSeq >= -1
    requires (r.baseSeq == -1 <==> r.maxSeq == -1) && number >= 0
    ensures var (z, ms) := R.Handled(r, number, now); Handles(r, z, number, now, cache, ms)
  {
    var c := R.Cached(r, number, now);
    cache := c.cache;
    RefusedIffWaits(r, number);
    if !R.Refused(r, number) {
      CachedAdds(r, number, now);
      if R.Due(c, now) { FlushSays(c, now); }
    }
  }

  lemma StepIsHandled(st: R.Trace, r: R.Receiver, number: int, now: int) returns (cache: Arrivals, news: seq<Message>)
    requires Sorted(Order, r.cache) && AllWithin(r.cache, 0, r.maxSeq) && r.maxSeq >= -1
    requires (r.baseSeq == -1 <==> r.maxSeq == -1) && number >= 0
    ensures var z := R.StepNumber(st, r, number, now);
      && R.Handled(r, number, now) == (z.receiver, news) && z.sent == st.sent + news && Handles(r, z.receiver, number, now, cache, news)
      && z.accepted == if Waits(r.cache, number) then st.accepted else st.accepted + [number]
  {
    news := R.Handled(r, number, now).1;
    RefusedIffWaits(r, number);
    cache := NumberIsHandled(r, number, now);
  }

  lemma HeardIs(r: R.Receiver, low: nat, now: int)
    requires r.last >= 0 && r.loss.last >= 0 && low < M16
    ensures R.Heard(r, low, now) == r.(last := Unwrap(M16, r.last, low), loss := LossWindows.Incoming(r.loss, low, now))
  {
  }

  /** One packet: its number is the one recovered from its low bits, and the loss statistics see it, accepted or not. */
  ghost predicate Receives(st: R.Trace, p: R.Packet, cache: Arrivals, news: seq<Message>)
    requires st.receiver.last >= 0 && st.receiver.loss.last >= 0 && p.low < M16
  {
    var r, z := st.receiver, R.Step(st, p);
    var number, loss := Unwrap(M16, r.last, p.low), LossWindows.Incoming(r.loss, p.low, p.now);
    && R.OnReceived(st.receiver, p.low, p.now) == (z.receiver, news) && z.sent == st.sent + news
    && Handles(r.(last := number, loss := loss), z.receiver, number, p.now, cache, news)
    && z.accepted == if Waits(r.cache, number) then st.accepted else st.accepted + [number]
  }

  lemma HeardIsHandled(st: R.Trace, p: R.Packet) returns (cache: Arrivals, news: seq<Message>)
    requires R.Inv(st) && p.low < M16
    ensures Receives(st, p, cache, news)
  {
    var h := R.Heard(st.receiver, p.low, p.now);
    HeardIs(st.receiver, p.low, p.now);
    cache, news := StepIsHandled(st, h, h.last, p.now);
  }

  lemma FreshKeeps()
    ensures R.Inv(FRESH)
  {
    R.NothingWithin(-1);
    assert R.Low([]) == [] && R.LowKeys([]) == [];
  }

  lemma Reachable(ps: seq<R.Packet>, end: R.Trace)
    requires R.Reaches(FRESH, ps, end)
    ensures R.Inv(end)
  {
    FreshKeeps();
    R.RunReportsOnce(FRESH, ps, end);
  }

  /** After any run, the next packet is handled so. */
  lemma PacketIsHandled(ps: seq<R.Packet>, end: R.Trace, p: R.Packet) returns (cache: Arrivals, news: seq<Message>)
    requires R.Reaches(FRESH, ps, end) && p.low < M16
    ensures end.receiver.last >= 0 && end.receiver.loss.last >= 0
    ensures Receives(end, p, cache, news)
  {
    Reachable(ps, end);
    cache, news := HeardIsHandled(end, p);
  }

  // ---- every number is accepted ----

  /** What waits was accepted. */
  predicate CacheKnown(st: R.Trace) {
    forall i :: 0 <= i < |st.receiver.cache| ==> st.receiver.cache[i].key in st.accepted
  }

  lemma AddedKeys(before: Arrivals, after: Arrivals, e: Entry<int, int>, i: nat)
    requires Adds(before, after, e) && i < |after|
    ensures after[i] == e || after[i] in before
  {
    assert after[i] in multiset(after);
  }

  lemma StepAccepts(st: R.Trace, p: R.Packet, x: nat)
    requires R.Inv(st) && CacheKnown(st) && p.low == x % M16 && Near(M16, st.receiver.last, x)
    ensures var z := R.Step(st, p);
      && R.Inv(z) && CacheKnown(z) && z.receiver.last == x
      && forall n :: n in z.accepted <==> n in st.accepted || n == x
  {
    RecoveredIffNear(M16, st.receiver.last, x);
    R.StepKeeps(st, p);
    var h := R.Heard(st.receiver, p.low, p.now);
    var cache, news := StepIsHandled(st, h, x, p.now);
    if !Waits(h.cache, x) {
      forall i | 0 <= i < |cache| ensures cache[i].key in st.accepted + [x] {
        AddedKeys(h.cache, cache, Entry(x, p.now), i);
      }
    }
  }

  /** The packets carry the low bits of these numbers. */
  predicate Carry(ps: seq<R.Packet>, xs: seq<nat>) {
    |ps| == |xs| && forall i :: 0 <= i < |ps| ==> ps[i].low == xs[i] % M16
  }

  lemma {:induction false} RunAccepts(st: R.Trace, ps: seq<R.Packet>, xs: seq<nat>, end: R.Trace)
    requires R.Inv(st) && CacheKnown(st) && R.Reaches(st, ps, end)
    requires Carry(ps, xs) && Smooth(M16, st.receiver.last, xs)
    ensures forall n :: n in end.accepted <==> n in st.accepted || n in xs
    decreases |ps|
  {
    if ps != [] {
      StepAccepts(st, ps[0], xs[0]);
      RunAccepts(R.Step(st, ps[0]), ps[1..], xs[1..], end);
    }
  }

  /** From packets that carry the low bits of a smooth sequence the receiver accepts exactly its numbers. */
  lemma SmoothRunsAreAccepted(ps: seq<R.Packet>, xs: seq<nat>, end: R.Trace)
    requires R.Reaches(FRESH, ps, end) && Carry(ps, xs) && Smooth(M16, 0, xs)
    ensures forall n :: n in end.accepted <==> n in xs
  {
    FreshKeeps();
    RunAccepts(FRESH, ps, xs, end);
  }
}
