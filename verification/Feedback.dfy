// The feedback of the BBR receiver and its wire format (ReCapABR/bbr/bbr_receiver.c and bbr_common.c).

/** The wire format of a feedback message. */
module FeedbackCodec {
  import opened Wrappers
  import opened ByteCodec
  import opened BinStreams

  const MAX_COUNT: nat := 128

  datatype Sampler = Sampler(number: nat, delta: nat)

  datatype Message = Message(flag: byte, fraction: byte, packets: int, samplers: seq<Sampler>)

  /** The bit bbr_loss_info_msg of the flag. */
  predicate HasLoss(flag: byte) { flag % 2 == 1 }

  predicate SamplerOk(s: Sampler) { s.number < U16 && s.delta < U16 }

  /** The fields fit their types. */
  predicate Ok(m: Message) {
    && -0x8000_0000 <= m.packets < 0x8000_0000
    && |m.samplers| <= MAX_COUNT && forall i :: 0 <= i < |m.samplers| ==> SamplerOk(m.samplers[i])
  }

  function SamplerBytes(samplers: seq<Sampler>): seq<byte>
    requires forall i :: 0 <= i < |samplers| ==> SamplerOk(samplers[i])
  {
    if samplers == [] then []
    else
      var last := samplers[|samplers| - 1];
      assert SamplerOk(last);
      SamplerBytes(samplers[..|samplers| - 1]) + Put2(last.number) + Put2(last.delta)
  }

  function Head(m: Message): seq<byte>
    requires Ok(m)
  {
    [m.flag] + (if HasLoss(m.flag) then [m.fraction] + Put4(Unsigned(m.packets)) else []) + [|m.samplers|]
  }

  /** bbr_feedback_msg_encode. */
  function Encode(m: Message): seq<byte>
    requires Ok(m)
  {
    Head(m) + SamplerBytes(m.samplers)
  }

  function TakeSamplers(s: seq<byte>, n: nat): seq<Sampler> {
    if n == 0 then []
    else
      var (number, s1) := Take2(s);
      var (delta, s2) := Take2(s1);
      [Sampler(number, delta)] + TakeSamplers(s2, n - 1)
  }

  /** bbr_feedback_msg_decode into a message that held m0; fields the flag leaves out keep their values. */
  function Decode(s: seq<byte>, m0: Message): Message {
    var (flag, s1) := Take1(s);
    var (fraction, s2) := if HasLoss(flag) then Take1(s1) else (m0.fraction as nat, s1);
    var (packets, s3) := if HasLoss(flag) then Take4(s2) else (m0.packets, s2);
    var (count, s4) := Take1(s3);
    Message(flag, fraction, packets, TakeSamplers(s4, if count > MAX_COUNT then 0 else count))
  }

  lemma {:induction false} SamplersTakenBack(samplers: seq<Sampler>)
    requires forall i :: 0 <= i < |samplers| ==> SamplerOk(samplers[i])
    ensures TakeSamplers(SamplerBytes(samplers), |samplers|) == samplers
    ensures |SamplerBytes(samplers)| == 4 * |samplers|
  {
    if samplers != [] {
      var init, last := samplers[..|samplers| - 1], samplers[|samplers| - 1];
      SamplersTakenBack(init);
      TakeMore(SamplerBytes(init), Put2(last.number) + Put2(last.delta), |init|);
      OneTaken(last);
      assert SamplerBytes(samplers) == SamplerBytes(init) + (Put2(last.number) + Put2(last.delta));
      assert init + [last] == samplers;
    }
  }

  lemma OneTaken(s: Sampler)
    requires SamplerOk(s)
    ensures TakeSamplers(Put2(s.number) + Put2(s.delta), 1) == [s]
  {
    Taken2(s.number, Put2(s.delta));
    Taken2(s.delta, []);
    assert Put2(s.delta) + [] == Put2(s.delta);
    assert TakeSamplers([], 0) == [];
  }

  /** Taking one more sampler from bytes that hold n of them and then some. */
  lemma {:induction false} TakeMore(s: seq<byte>, t: seq<byte>, n: nat)
    requires |s| == 4 * n && |t| >= 4
    ensures TakeSamplers(s + t, n + 1) == TakeSamplers(s, n) + TakeSamplers(t, 1)
  {
    if n == 0 {
      assert s + t == t;
    } else {
      TakePrefix(s, t);
      TakePrefix(s[2..], t);
      assert s[2..][2..] == s[4..];
      TakeMore(s[4..], t, n - 1);
    }
  }

  lemma TakePrefix(s: seq<byte>, t: seq<byte>)
    requires |s| >= 2
    ensures Take2(s + t).0 == Take2(s).0 && Take2(s + t).1 == s[2..] + t && Take2(s).1 == s[2..]
  {
  }

  /** Decoding an encoded message returns every field that its flag says is present. */
  lemma RoundTrip(m: Message, m0: Message)
    requires Ok(m)
    ensures Decode(Encode(m), m0) ==
            if HasLoss(m.flag) then m else m.(fraction := m0.fraction, packets := m0.packets)
  {
    var bytes := SamplerBytes(m.samplers);
    var tail := [|m.samplers|] + bytes;
    SamplersTakenBack(m.samplers);
    Taken1(|m.samplers|, bytes);
    if HasLoss(m.flag) {
      var packets := Put4(Unsigned(m.packets));
      LossHead(m.flag, m.fraction, packets, |m.samplers|, bytes);
      Taken1(m.flag, [m.fraction] + (packets + tail));
      Taken1(m.fraction, packets + tail);
      Taken4(m.packets, tail);
    } else {
      assert Encode(m) == [m.flag] + tail;
      Taken1(m.flag, tail);
    }
  }

  lemma Taken1(v: byte, rest: seq<byte>)
    ensures Take1([v] + rest) == (v, rest)
  {
    TakeBack(v, 0, 0, rest);
  }

  lemma Taken2(v: nat, rest: seq<byte>)
    requires v < U16
    ensures Take2(Put2(v) + rest) == (v, rest)
  {
    TakeBack(0, v, 0, rest);
  }

  lemma Taken4(v: int, rest: seq<byte>)
    requires -0x8000_0000 <= v < 0x8000_0000
    ensures Take4(Put4(Unsigned(v)) + rest) == (v, rest)
  {
    TakeBack(0, 0, v, rest);
  }

  lemma LossHead(flag: byte, fraction: byte, packets: seq<byte>, count: byte, rest: seq<byte>)
    ensures [flag] + ([fraction] + packets) + [count] + rest == [flag] + ([fraction] + (packets + ([count] + rest)))
  {
  }

  /** Whatever the bytes, a decoded message holds no more samplers than its array. */
  lemma DecodedFits(s: seq<byte>, m0: Message)
    ensures |Decode(s, m0).samplers| <= MAX_COUNT
  {
    var flag, s1 := Take1(s).0, Take1(s).1;
    var s3 := if HasLoss(flag) then Take4(Take1(s1).1).1 else s1;
    TakenCount(Take1(s3).1, if Take1(s3).0 > MAX_COUNT then 0 else Take1(s3).0);
  }

  lemma {:induction false} TakenCount(s: seq<byte>, n: nat)
    ensures |TakeSamplers(s, n)| == n
  {
    if n > 0 { TakenCount(Take2(Take2(s).1).1, n - 1); }
  }

  method EncodeMessage(strm: BinStream, m: Message)
    requires strm.Valid() && Ok(m)
    modifies strm, strm.data
    ensures strm.Valid() && strm.Contents() == Encode(m) && strm.rsize == 0
    ensures strm.data == old(strm.data) || fresh(strm.data)
  {
    strm.Rewind(true);
    WriteHead(strm, m);
    WriteSamplers(strm, m.samplers);
  }

  method WriteHead(strm: BinStream, m: Message)
    requires strm.Valid() && Ok(m) && strm.Contents() == []
    modifies strm`data, strm`used, strm.data
    ensures strm.Valid() && strm.Contents() == Head(m)
    ensures strm.rsize == old(strm.rsize) && (strm.data == old(strm.data) || fresh(strm.data))
  {
    strm.Write1(m.flag);
    if HasLoss(m.flag) {
      strm.Write1(m.fraction);
      strm.WriteInt4(m.packets);
    }
    strm.Write1(|m.samplers|);
  }

  method WriteSamplers(strm: BinStream, samplers: seq<Sampler>)
    requires strm.Valid() && forall i :: 0 <= i < |samplers| ==> SamplerOk(samplers[i])
    modifies strm`data, strm`used, strm.data
    ensures strm.Valid() && strm.Contents() == old(strm.Contents()) + SamplerBytes(samplers)
    ensures strm.rsize == old(strm.rsize) && (strm.data == old(strm.data) || fresh(strm.data))
  {
    ghost var head := strm.Contents();
    assert head + SamplerBytes(samplers[..0]) == head;
    for i := 0 to |samplers|
      invariant strm.Valid() && strm.rsize == old(strm.rsize)
      invariant strm.data == old(strm.data) || fresh(strm.data)
      invariant strm.Contents() == head + SamplerBytes(samplers[..i])
    {
      ghost var before := samplers[..i];
      assert samplers[..i + 1] == before + [samplers[i]];
      assert (before + [samplers[i]])[..i] == before;
      assert SamplerOk(samplers[i]);
      strm.Write2(samplers[i].number);
      strm.Write2(samplers[i].delta);
      AppendSampler(head, before, samplers[i]);
    }
    assert samplers[..|samplers|] == samplers;
  }

  lemma AppendSampler(head: seq<byte>, before: seq<Sampler>, s: Sampler)
    requires SamplerOk(s) && forall i :: 0 <= i < |before| ==> SamplerOk(before[i])
    ensures head + SamplerBytes(before) + Put2(s.number) + Put2(s.delta) == head + SamplerBytes(before + [s])
  {
    assert (before + [s])[..|before|] == before;
    var b, p, q := SamplerBytes(before), Put2(s.number), Put2(s.delta);
    assert SamplerBytes(before + [s]) == b + p + q;
    Regroup(head, b, p, q);
  }

  lemma Regroup<T>(a: seq<T>, b: seq<T>, c: seq<T>, d: seq<T>)
    ensures a + b + c + d == a + (b + c + d)
  {
  }

  method DecodeMessage(strm: BinStream, m0: Message) returns (m: Message)
    requires strm.Valid()
    modifies strm`rsize
    ensures strm.Valid() && m == Decode(old(strm.Unread()), m0)
  {
    var flag := strm.Read1();
    var fraction, packets := m0.fraction, m0.packets;
    if HasLoss(flag) {
      fraction := strm.Read1();
      packets := strm.ReadInt4();
    }
    var count: nat := strm.Read1();
    if count > MAX_COUNT {
      count := 0;
    }
    var samplers := ReadSamplers(strm, count);
    m := Message(flag, fraction, packets, samplers);
  }

  method ReadSamplers(strm: BinStream, count: nat) returns (samplers: seq<Sampler>)
    requires strm.Valid()
    modifies strm`rsize
    ensures strm.Valid() && samplers == TakeSamplers(old(strm.Unread()), count)
  {
    ghost var left := strm.Unread();
    samplers := [];
    for i := 0 to count
      invariant strm.Valid()
      invariant TakeSamplers(left, count) == samplers + TakeSamplers(strm.Unread(), count - i)
    {
      var number := strm.Read2();
      var delta := strm.Read2();
      samplers := samplers + [Sampler(number, delta)];
    }
  }
}

/** Cutting the cached arrivals into messages. */
module FeedbackBatches {
  import opened Wrappers
  import opened SortedEntries
  import opened LossWindows
  import opened FeedbackCodec

  /** The sequence numbers of one message lie within this many of its first. */
  const SPAN: nat := MAX_COUNT - 1

  type Arrivals = seq<Entry<int, int>>

  /** How many entries from the front belong in a message that starts with a number. */
  function Leading(start: int, s: Arrivals): (n: nat)
    ensures n <= |s|
    ensures forall i :: 0 <= i < n ==> s[i].key < start + SPAN
    ensures n < |s| ==> s[n].key >= start + SPAN
  {
    if s == [] || s[0].key >= start + SPAN then 0 else 1 + Leading(start, s[1..])
  }

  /** The groups of arrivals, one for each message. */
  function Groups(s: Arrivals): seq<Arrivals> {
    if s == [] then []
    else
      var n := Leading(s[0].key, s);
      [s[..n]] + Groups(s[n..])
  }

  function SamplerOf(e: Entry<int, int>, now: int): (s: Sampler)
    ensures SamplerOk(s)
  {
    Sampler(e.key % 0x1_0000, if now > e.val then (now - e.val) % 0x1_0000 else 0)
  }

  function SamplersOf(s: Arrivals, now: int): (r: seq<Sampler>)
    ensures |r| == |s| && forall i :: 0 <= i < |s| ==> r[i] == SamplerOf(s[i], now)
  {
    seq(|s|, i requires 0 <= i < |s| => SamplerOf(s[i], now))
  }

  predicate ReportFits(report: Option<Report>) {
    report.Some? ==> 0 <= report.value.fraction < 256 && -HALF32 <= report.value.number < HALF32
  }

  /** The message about a group, with the loss report if there is one. */
  function MessageOf(s: Arrivals, now: int, report: Option<Report>): Message
    requires ReportFits(report)
  {
    if report.Some? then Message(3, report.value.fraction, report.value.number, SamplersOf(s, now))
    else Message(2, 0, 0, SamplersOf(s, now))
  }

  function MessagesOf(groups: seq<Arrivals>, now: int, report: Option<Report>): seq<Message>
    requires ReportFits(report)
  {
    if groups == [] then [] else [MessageOf(groups[0], now, report)] + MessagesOf(groups[1..], now, report)
  }

  // ---- the messages partition the arrivals ----

  function Joined(groups: seq<Arrivals>): Arrivals {
    if groups == [] then [] else groups[0] + Joined(groups[1..])
  }

  /** Every arrival is in exactly one message, in order. */
  lemma {:induction false} GroupsPartition(s: Arrivals)
    ensures Joined(Groups(s)) == s
    decreases |s|
  {
    if s != [] {
      var n := Leading(s[0].key, s);
      var rest := Groups(s[n..]);
      GroupsPartition(s[n..]);
      assert Groups(s) == [s[..n]] + rest && ([s[..n]] + rest)[1..] == rest;
      assert s[..n] + s[n..] == s;
    }
  }

  /** A group is not empty and its numbers lie within 127 of its first. */
  predicate GroupOk(g: Arrivals) {
    0 < |g| <= SPAN && forall i :: 0 <= i < |g| ==> g[0].key <= g[i].key < g[0].key + SPAN
  }

  lemma {:induction false} SpanBoundsCount(s: Arrivals, n: nat)
    requires Sorted(Order, s) && n < |s|
    ensures s[n].key >= s[0].key + n
  {
    if n > 0 {
      SpanBoundsCount(s, n - 1);
      assert Below(Order, s, n - 1, n);
    }
  }

  lemma LeadingOk(s: Arrivals)
    requires Sorted(Order, s) && s != []
    ensures GroupOk(s[..Leading(s[0].key, s)])
  {
    var n := Leading(s[0].key, s);
    SpanBoundsCount(s, n - 1);
    forall i | 0 <= i < n ensures s[0].key <= s[i].key { SpanBoundsCount(s, i); }
  }

  lemma RestSorted(s: Arrivals, n: nat)
    requires Sorted(Order, s) && n <= |s|
    ensures Sorted(Order, s[n..])
  {
    forall i, j ensures Below(Order, s[n..], i, j) { assert Below(Order, s, i + n, j + n); }
  }

  /** Every message holds between one and 127 arrivals within a span of 127 numbers. */
  lemma {:induction false} GroupsAreSmall(s: Arrivals)
    requires Sorted(Order, s)
    ensures forall g :: g in Groups(s) ==> GroupOk(g)
    decreases |s|
  {
    if s != [] {
      var n := Leading(s[0].key, s);
      LeadingOk(s);
      RestSorted(s, n);
      GroupsAreSmall(s[n..]);
    }
  }

  /** Inside a message the full numbers follow from the first one and the low 16 bits. */
  lemma NumbersFollow(g: Arrivals, now: int, i: nat)
    requires GroupOk(g) && i < |g|
    ensures var r := SamplersOf(g, now); g[i].key == g[0].key + (r[i].number - r[0].number) % 0x1_0000
  {
  }

  lemma TailOfTail<T>(s: seq<T>, i: nat, j: nat)
    requires i <= j <= |s|
    ensures s[i..][j - i..] == s[j..]
  {
  }

  predicate CutOk(cut: seq<Arrivals>) {
    forall g :: g in cut ==> GroupOk(g)
  }

  /** The first group of a cut of s[p..] ends at p + |cut[0]|, and the rest of the cut is one of what follows. */
  lemma FirstCut(s: Arrivals, p: nat, cut: seq<Arrivals>)
    requires p < |s| && Joined(cut) == s[p..] && CutOk(cut)
    ensures var m := p + |cut[0]|;
      && p < m <= |s| && Joined(cut[1..]) == s[m..] && CutOk(cut[1..])
      && forall i :: p <= i < m ==> s[i].key < s[p].key + SPAN
  {
    var first := cut[0];
    assert GroupOk(first) && s[p..] == first + Joined(cut[1..]);
    assert forall i :: p <= i < p + |first| ==> s[i] == s[p..][i - p] == first[i - p];
    TailOfTail(s, p, p + |first|);
  }

  /** Where the group that starts at position q ends. */
  function EndOf(s: Arrivals, q: nat): (r: nat)
    requires q < |s|
    ensures q < r <= |s|
    ensures r < |s| ==> s[r].key >= s[q].key + SPAN
  {
    q + Leading(s[q].key, s[q..])
  }

  /** The number of groups from position q on. */
  function CountFrom(s: Arrivals, q: nat): nat
    requires q <= |s|
    decreases |s| - q
  {
    if q == |s| then 0 else 1 + CountFrom(s, EndOf(s, q))
  }

  function GroupCount(t: Arrivals): nat { |Groups(t)| }

  lemma GroupsFirst(t: Arrivals, n: nat, rest: Arrivals)
    requires t != [] && n == Leading(t[0].key, t) && rest == t[n..]
    ensures GroupCount(t) == 1 + GroupCount(rest)
  {
  }

  lemma GroupsFrom(s: Arrivals, q: nat, r: nat, t: Arrivals)
    requires q < |s| && r == EndOf(s, q) && t == s[q..]
    ensures GroupCount(t) == 1 + GroupCount(s[r..])
  {
    TailOfTail(s, q, r);
    GroupsFirst(t, r - q, s[r..]);
  }

  lemma {:induction false} CountFromIs(s: Arrivals, q: nat)
    requires q <= |s|
    ensures CountFrom(s, q) == GroupCount(s[q..])
    decreases |s| - q
  {
    if q < |s| {
      CountFromIs(s, EndOf(s, q));
      GroupsFrom(s, q, EndOf(s, q), s[q..]);
    } else {
      assert s[q..] == [];
    }
  }

  /** Groups that start at q are no more than those of any cut that starts before. */
  lemma {:induction false} CountFromIsLeast(s: Arrivals, p: nat, q: nat, cut: seq<Arrivals>)
    requires Sorted(Order, s) && p <= q <= |s| && Joined(cut) == s[p..] && CutOk(cut)
    ensures CountFrom(s, q) <= |cut|
    decreases |cut|
  {
    if q < |s| {
      FirstCut(s, p, cut);
      var m := p + |cut[0]|;
      if m <= q {
        CountFromIsLeast(s, m, q, cut[1..]);
      } else {
        assert q > p ==> Below(Order, s, p, q);
        assert EndOf(s, q) >= m;
        CountFromIsLeast(s, m, EndOf(s, q), cut[1..]);
      }
    }
  }

  /** Any way to cut the arrivals into such groups takes at least as many messages. */
  lemma GroupsAreFewest(s: Arrivals, cut: seq<Arrivals>)
    requires Sorted(Order, s) && Joined(cut) == s && CutOk(cut)
    ensures |Groups(s)| <= |cut|
  {
    assert s[0..] == s;
    CountFromIs(s, 0);
    CountFromIsLeast(s, 0, 0, cut);
  }
}

/** The receiver as a value, and every run of it. */
module BbrReceiverRuns {
  import opened Wrappers
  import opened SortedEntries
  import opened Unwrapping
  import opened LossWindows
  import opened FeedbackCodec
  import opened FeedbackBatches

  const THRESHOLD: nat := 16
  const INTERVAL: int := 10

  datatype Receiver = Receiver(loss: Window, last: int, maxSeq: int, baseSeq: int, feedbackTs: int, cache: Arrivals)

  function Fresh(): Receiver { Receiver(LossWindows.Start(), 0, -1, -1, -1, []) }

  /** The arrival is a duplicate of one in the cache. */
  predicate Refused(r: Receiver, number: int) { r.maxSeq >= number && SortedEntries.Has(Order, r.cache, number) }

  /** The cache is sent: 16 arrivals, or 3 and the last feedback is more than 10 ms old. */
  predicate Due(r: Receiver, now: int) {
    |r.cache| >= THRESHOLD || (|r.cache| > 2 && now > r.feedbackTs + INTERVAL)
  }

  /** The arrival as the source caches it; the window is only reset by the first one. */
  function Cached(r: Receiver, number: int, now: int): Receiver {
    var first := r.maxSeq < number && r.baseSeq == -1;
    r.(maxSeq := if r.maxSeq < number then number else r.maxSeq,
       baseSeq := if first then number else r.baseSeq,
       cache := Inserted(Order, if first then [] else r.cache, number, now))
  }

  lemma ReportAlwaysFits(w: Window, now: int)
    ensures ReportFits(Calculated(w, now).1)
  {
  }

  /** Sending the cache: the receiver afterwards and the messages. */
  function Flushed(r: Receiver, now: int): (Receiver, seq<Message>) {
    ReportAlwaysFits(r.loss, now);
    var (loss, report) := Calculated(r.loss, now);
    (r.(feedbackTs := now, loss := loss, cache := []), MessagesOf(Groups(r.cache), now, report))
  }

  /** Handling a number once it is recovered and counted. */
  function Handled(r: Receiver, number: int, now: int): (Receiver, seq<Message>) {
    if Refused(r, number) then (r, [])
    else
      var c := Cached(r, number, now);
      if Due(c, now) then Flushed(c, now) else (c, [])
  }

  /** The receiver after the loss statistics and the unwrapper have seen the packet. */
  function Heard(r: Receiver, low: nat, now: int): (h: Receiver)
    requires r.last >= 0 && r.loss.last >= 0 && low < M16
    ensures h == r.(loss := h.loss, last := h.last) && h.last >= 0 && h.loss.last >= 0
  {
    UnwrapIsCongruent(M16, r.last, low);
    UnwrapIsCongruent(M16, r.loss.last, low);
    r.(loss := LossWindows.Incoming(r.loss, low, now), last := Unwrap(M16, r.last, low))
  }

  /** bbr_receive_on_received for a packet with the given low 16 bits. */
  function OnReceived(r: Receiver, low: nat, now: int): (Receiver, seq<Message>)
    requires r.last >= 0 && r.loss.last >= 0 && low < M16
  {
    Handled(Heard(r, low, now), Heard(r, low, now).last, now)
  }

  // ---- runs ----

  datatype Packet = Packet(low: nat, now: int)

  /** A run: the receiver, the numbers it accepted, and the messages it sent. */
  datatype Trace = Trace(receiver: Receiver, accepted: seq<int>, sent: seq<Message>)

  function StepNumber(st: Trace, r: Receiver, number: int, now: int): Trace {
    var (after, sent) := Handled(r, number, now);
    Trace(after, if Refused(r, number) then st.accepted else st.accepted + [number], st.sent + sent)
  }

  function Step(st: Trace, p: Packet): Trace
    requires st.receiver.last >= 0 && st.receiver.loss.last >= 0 && p.low < M16
  {
    var r := Heard(st.receiver, p.low, p.now);
    StepNumber(st, r, r.last, p.now)
  }

  // ---- what the messages say ----

  function NumbersOf(s: seq<Sampler>): (r: seq<nat>)
    ensures |r| == |s| && forall i :: 0 <= i < |s| ==> r[i] == s[i].number
  {
    seq(|s|, i requires 0 <= i < |s| => s[i].number)
  }

  /** The numbers that messages list. */
  function Numbers(ms: seq<Message>): seq<nat> {
    if ms == [] then [] else NumbersOf(ms[0].samplers) + Numbers(ms[1..])
  }

  lemma {:induction false} NumbersJoin(a: seq<Message>, b: seq<Message>)
    ensures Numbers(a + b) == Numbers(a) + Numbers(b)
    decreases |a|
  {
    if a == [] {
      assert a + b == b;
    } else {
      NumbersJoin(a[1..], b);
      assert (a + b)[1..] == a[1..] + b;
      Associative(NumbersOf(a[0].samplers), Numbers(a[1..]), Numbers(b));
    }
  }

  lemma Associative<T>(a: seq<T>, b: seq<T>, c: seq<T>)
    ensures a + (b + c) == (a + b) + c
  {
  }

  function LowBits(n: int): nat { n % M16 }

  /** The low 16 bits of numbers. */
  function Low(s: seq<int>): (r: seq<nat>)
    ensures |r| == |s| && forall i :: 0 <= i < |s| ==> r[i] == LowBits(s[i])
  {
    seq(|s|, i requires 0 <= i < |s| => LowBits(s[i]))
  }

  function LowKeys(s: Arrivals): (r: seq<nat>)
    ensures |r| == |s| && forall i :: 0 <= i < |s| ==> r[i] == LowBits(s[i].key)
  {
    seq(|s|, i requires 0 <= i < |s| => LowBits(s[i].key))
  }

  lemma {:induction false} MessagesSay(groups: seq<Arrivals>, now: int, report: Option<Report>)
    requires ReportFits(report)
    ensures Numbers(MessagesOf(groups, now, report)) == LowKeys(Joined(groups))
  {
    if groups != [] {
      MessagesSay(groups[1..], now, report);
      var m := MessageOf(groups[0], now, report);
      var rest := MessagesOf(groups[1..], now, report);
      assert MessagesOf(groups, now, report) == [m] + rest && ([m] + rest)[1..] == rest;
      assert NumbersOf(m.samplers) == LowKeys(groups[0]);
      assert LowKeys(Joined(groups)) == LowKeys(groups[0]) + LowKeys(Joined(groups[1..]));
    }
  }

  /** The messages of one flush list the low 16 bits of exactly the cached numbers, in order. */
  lemma FlushReportsCache(r: Receiver, now: int)
    ensures Numbers(Flushed(r, now).1) == LowKeys(r.cache)
  {
    ReportAlwaysFits(r.loss, now);
    MessagesSay(Groups(r.cache), now, Calculated(r.loss, now).1);
    GroupsPartition(r.cache);
  }

  // ---- what every packet keeps ----

  /** Every accepted number is cached or listed in a message that was sent, as often as it was accepted. */
  ghost predicate Accounted(accepted: seq<int>, sent: seq<Message>, cache: Arrivals) {
    multiset(Low(accepted)) == multiset(Numbers(sent)) + multiset(LowKeys(cache))
  }

  ghost predicate Inv(st: Trace) {
    var r := st.receiver;
    && r.last >= 0 && r.loss.last >= 0
    && Sorted(Order, r.cache) && AllWithin(r.cache, 0, r.maxSeq)
    && (r.baseSeq == -1 <==> r.maxSeq == -1) && r.maxSeq >= -1
    && Accounted(st.accepted, st.sent, r.cache)
  }

  lemma AcceptAccounted(accepted: seq<int>, sent: seq<Message>, before: Arrivals, after: Arrivals, number: int)
    requires Accounted(accepted, sent, before)
    requires multiset(LowKeys(after)) == multiset(LowKeys(before)) + multiset{LowBits(number)}
    ensures Accounted(accepted + [number], sent, after)
  {
    assert Low(accepted + [number]) == Low(accepted) + [LowBits(number)];
  }

  lemma FlushAccounted(accepted: seq<int>, sent: seq<Message>, cache: Arrivals, flushed: seq<Message>)
    requires Accounted(accepted, sent, cache) && Numbers(flushed) == LowKeys(cache)
    ensures Accounted(accepted, sent + flushed, [])
  {
    NumbersJoin(sent, flushed);
    assert LowKeys([]) == [];
  }

  lemma KeysInserted(s: Arrivals, number: int, now: int)
    requires !SortedEntries.Has(Order, s, number)
    ensures multiset(LowKeys(Inserted(Order, s, number, now))) == multiset(LowKeys(s)) + multiset{LowBits(number)}
  {
    var m := LowerBound(Order, s, number);
    KeysPlaced(s, m, Entry(number, now));
    Placed(LowKeys(s), m, LowBits(number));
  }

  lemma KeysPlaced(s: Arrivals, m: nat, e: Entry<int, int>)
    requires m <= |s|
    ensures LowKeys(s[..m] + [e] + s[m..]) == LowKeys(s)[..m] + [LowBits(e.key)] + LowKeys(s)[m..]
  {
  }

  /** A number above every key is not in the cache. */
  lemma NewIsAbsent(s: Arrivals, high: int, number: int)
    requires AllWithin(s, 0, high) && number > high
    ensures !SortedEntries.Has(Order, s, number)
  {
    var m := LowerBound(Order, s, number);
    assert KeyAt(s, m, 0, high);
  }

  lemma CachedKeeps(r: Receiver, number: int, now: int)
    requires Sorted(Order, r.cache) && AllWithin(r.cache, 0, r.maxSeq) && r.maxSeq >= -1
    requires (r.baseSeq == -1 <==> r.maxSeq == -1) && number >= 0 && !Refused(r, number)
    ensures var c := Cached(r, number, now);
      && Sorted(Order, c.cache) && AllWithin(c.cache, 0, c.maxSeq) && c.maxSeq >= 0
      && c.baseSeq != -1
      && multiset(LowKeys(c.cache)) == multiset(LowKeys(r.cache)) + multiset{LowBits(number)}
  {
    OrderIsTotal();
    if r.maxSeq == -1 { assert r.cache == [] by { assert KeyAt(r.cache, 0, 0, -1); } }
    if r.maxSeq < number { NewIsAbsent(r.cache, r.maxSeq, number); }
    var top := if r.maxSeq < number then number else r.maxSeq;
    InsertedSorted(Order, r.cache, number, now);
    InsertedKeys(r.cache, number, now, r.maxSeq, top);
    KeysInserted(r.cache, number, now);
  }

  lemma StepNumberKeeps(st: Trace, number: int, now: int)
    requires Inv(st) && number >= 0
    ensures Inv(StepNumber(st, st.receiver, number, now))
  {
    var r := st.receiver;
    assert st.sent + [] == st.sent;
    if !Refused(r, number) {
      var c, accepted := Cached(r, number, now), st.accepted + [number];
      CachedKeeps(r, number, now);
      AcceptAccounted(st.accepted, st.sent, r.cache, c.cache, number);
      if Due(c, now) {
        NothingWithin(c.maxSeq);
        FlushReportsCache(c, now);
        FlushAccounted(accepted, st.sent, c.cache, Flushed(c, now).1);
      }
    }
  }

  lemma StepKeeps(st: Trace, p: Packet)
    requires Inv(st) && p.low < M16
    ensures Inv(Step(st, p))
  {
    var r := Heard(st.receiver, p.low, p.now);
    StepNumberKeeps(st.(receiver := r), r.last, p.now);
  }

  lemma NothingWithin(high: int)
    ensures AllWithin([], 0, high) && Sorted<int, int>(Order, [])
  {
  }

  ghost predicate Reaches(st: Trace, ps: seq<Packet>, end: Trace)
    decreases |ps|
  {
    if ps == [] then st == end
    else
      && st.receiver.last >= 0 && st.receiver.loss.last >= 0 && ps[0].low < M16
      && Reaches(Step(st, ps[0]), ps[1..], end)
  }

  /** Over every run each accepted number is listed once, or still waits in the cache. */
  lemma {:induction false} RunReportsOnce(st: Trace, ps: seq<Packet>, end: Trace)
    requires Inv(st) && Reaches(st, ps, end)
    ensures Inv(end)
    decreases |ps|
  {
    if ps != [] {
      StepKeeps(st, ps[0]);
      RunReportsOnce(Step(st, ps[0]), ps[1..], end);
    }
  }

  /** From the start: the messages list, and the cache holds, what was accepted, each number as often as accepted. */
  lemma ReceiverReportsOnce(ps: seq<Packet>, end: Trace)
    requires Reaches(Trace(Fresh(), [], []), ps, end)
    ensures Accounted(end.accepted, end.sent, end.receiver.cache)
    ensures Sorted(Order, end.receiver.cache)
  {
    NothingWithin(-1);
    assert Low([]) == [] && LowKeys([]) == [];
    RunReportsOnce(Trace(Fresh(), [], []), ps, end);
  }
}

/** The receiver object. */
module BbrReceivers {
  import opened Wrappers
  import opened SortedEntries
  import opened Unwrappers
  import opened LossWindows
  import opened LossStatistics
  import opened BinStreams
  import opened FeedbackCodec
  import opened FeedbackBatches
  import opened BbrReceiverRuns

  function Wire(m: Message): seq<byte> { if FeedbackCodec.Ok(m) then Encode(m) else [] }

  /** The bytes of the messages, in order. */
  function Encoded(ms: seq<Message>): seq<seq<byte>> {
    if ms == [] then [] else [Wire(ms[0])] + Encoded(ms[1..])
  }

  /** The packets for a list of arrivals. */
  function Packets(s: Arrivals, now: int, report: Option<Report>): seq<seq<byte>>
    requires ReportFits(report)
  {
    Encoded(MessagesOf(Groups(s), now, report))
  }

  /** The entries from first to i are the samplers of the message under construction. */
  predicate Building(s: Arrivals, first: nat, i: nat, start: int, samplers: seq<Sampler>, now: int) {
    && first <= i <= |s| && first < |s| && (i > 0 ==> first < i)
    && start == s[first].key && samplers == SamplersOf(s[first..i], now)
    && forall k :: first <= k < i ==> s[k].key < start + SPAN
  }

  /** What was sent, and what the entries from first on still make, is everything. */
  predicate SentSoFar(sent: seq<seq<byte>>, s: Arrivals, first: nat, now: int, report: Option<Report>)
    requires ReportFits(report) && first <= |s|
  {
    sent + Packets(s[first..], now, report) == Packets(s, now, report)
  }

  lemma NothingSent(s: Arrivals, now: int, report: Option<Report>)
    requires ReportFits(report) && s != []
    ensures Building(s, 0, 0, s[0].key, [], now) && SentSoFar([], s, 0, now, report)
  {
    assert s[0..] == s && s[0..0] == [];
  }

  lemma BuildingFirst(s: Arrivals, i: nat, now: int)
    requires i < |s|
    ensures Building(s, i, i + 1, s[i].key, [SamplerOf(s[i], now)], now)
  {
    assert s[i..i + 1] == [s[i]];
  }

  lemma BuildingNext(s: Arrivals, first: nat, i: nat, start: int, samplers: seq<Sampler>, now: int)
    requires Building(s, first, i, start, samplers, now) && i < |s| && s[i].key < start + SPAN
    ensures Building(s, first, i + 1, start, samplers + [SamplerOf(s[i], now)], now)
  {
    assert s[first..i + 1] == s[first..i] + [s[i]];
  }

  lemma AllSent(sent: seq<seq<byte>>, s: Arrivals, now: int, report: Option<Report>)
    requires ReportFits(report) && SentSoFar(sent, s, |s|, now, report)
    ensures sent == Packets(s, now, report)
  {
    assert s[|s|..] == [];
    assert sent + [] == sent;
  }

  /** A group that cannot grow is the next message. */
  lemma GroupDone(s: Arrivals, first: nat, i: nat)
    requires Sorted(Order, s) && first < i <= |s|
    requires forall k :: first <= k < i ==> s[k].key < s[first].key + SPAN
    requires i < |s| ==> s[i].key >= s[first].key + SPAN
    ensures GroupOk(s[first..i]) && Groups(s[first..]) == [s[first..i]] + Groups(s[i..])
  {
    var t := s[first..];
    RestSorted(s, first);
    var n := Leading(t[0].key, t);
    assert n < |t| ==> t[n] == s[first + n];
    assert i < |s| ==> t[i - first] == s[i];
    assert t[..n] == s[first..i] && t[n..] == s[i..];
    LeadingOk(t);
  }

  lemma SendGroup(sent: seq<seq<byte>>, s: Arrivals, first: nat, i: nat, now: int, report: Option<Report>)
    requires ReportFits(report) && first < i <= |s| && SentSoFar(sent, s, first, now, report)
    requires GroupOk(s[first..i]) && Groups(s[first..]) == [s[first..i]] + Groups(s[i..])
    ensures SentSoFar(sent + [Wire(MessageOf(s[first..i], now, report))], s, i, now, report)
  {
    FirstPacket(s[first..i], Groups(s[i..]), now, report);
    Regrouped(sent, Wire(MessageOf(s[first..i], now, report)), Packets(s[i..], now, report));
  }

  lemma FirstPacket(g: Arrivals, rest: seq<Arrivals>, now: int, report: Option<Report>)
    requires ReportFits(report)
    ensures Encoded(MessagesOf([g] + rest, now, report))
            == [Wire(MessageOf(g, now, report))] + Encoded(MessagesOf(rest, now, report))
  {
    assert ([g] + rest)[1..] == rest;
    EncodedFirst(MessageOf(g, now, report), MessagesOf(rest, now, report));
  }

  lemma EncodedFirst(m: Message, ms: seq<Message>)
    ensures Encoded([m] + ms) == [Wire(m)] + Encoded(ms)
  {
    assert ([m] + ms)[1..] == ms;
  }

  lemma Regrouped<T>(a: seq<T>, x: T, b: seq<T>)
    ensures a + ([x] + b) == (a + [x]) + b
  {
  }

  lemma MessageFits(g: Arrivals, now: int, report: Option<Report>)
    requires ReportFits(report) && GroupOk(g)
    ensures FeedbackCodec.Ok(MessageOf(g, now, report))
  {
  }

  /** Every message of a flush fits the wire format, so its packets decode to the messages. */
  lemma FlushFits(r: Receiver, now: int)
    requires Sorted(Order, r.cache)
    ensures AllFit(Flushed(r, now).1)
  {
    ReportAlwaysFits(r.loss, now);
    GroupsAreSmall(r.cache);
    MessagesFit(Groups(r.cache), now, Calculated(r.loss, now).1);
  }

  lemma {:induction false} MessagesFit(groups: seq<Arrivals>, now: int, report: Option<Report>)
    requires ReportFits(report) && forall g :: g in groups ==> GroupOk(g)
    ensures AllFit(MessagesOf(groups, now, report))
  {
    if groups != [] {
      MessagesFit(groups[1..], now, report);
      MessageFits(groups[0], now, report);
    }
  }

  predicate AllFit(ms: seq<Message>) { forall i :: 0 <= i < |ms| ==> FeedbackCodec.Ok(ms[i]) }

  class BbrReceiver {
    var maxSeq: int
    var baseSeq: int
    var feedbackTs: int
    var cache: Arrivals
    const loss: LossStatistic
    const unwrapper: Unwrapper
    const strm: BinStream

    ghost predicate Valid()
      reads this, loss, loss.wrapper, unwrapper, strm
    {
      && loss.Valid() && unwrapper.Valid() && unwrapper.size == 2 && strm.Valid()
      && unwrapper != loss.wrapper && Sorted(Order, cache)
    }

    ghost function Abs(): Receiver
      reads this, loss, loss.wrapper, unwrapper
    {
      Receiver(loss.Abs(), unwrapper.lastValue, maxSeq, baseSeq, feedbackTs, cache)
    }

    constructor ()
      ensures Valid() && Abs() == Fresh()
      ensures fresh(loss) && fresh(loss.wrapper) && fresh(unwrapper) && fresh(strm) && fresh(strm.data)
    {
      loss := new LossStatistic();
      unwrapper := new Unwrapper.Init16();
      strm := new BinStream();
      maxSeq, baseSeq, feedbackTs, cache := -1, -1, -1, [];
    }

    /** Asks for the loss report, encodes one message and hands the bytes on. */
    method Send(flag: byte, samplers: seq<Sampler>, now: int,
                ghost g: Arrivals, ghost v: Window, ghost report: Option<Report>)
        returns (bytes: seq<byte>)
      requires Valid() && GroupOk(g) && samplers == SamplersOf(g, now) && flag == 2
      requires ReportFits(report) && Reports(loss.Abs(), now, v, report)
      modifies loss`list, loss`statTs, strm, strm.data
      ensures Valid() && loss.Abs() == v
      ensures strm.data == old(strm.data) || fresh(strm.data)
      ensures bytes == Wire(MessageOf(g, now, report))
    {
      var found := loss.Calculate(now);
      var m := Compose(flag, samplers, found, g, now);
      EncodeMessage(strm, m);
      bytes := strm.data[..strm.used];
    }

    /** The loop over the cache. */
    method SendAll(entries: Arrivals, now: int, ghost v: Window, ghost report: Option<Report>)
        returns (sent: seq<seq<byte>>)
      requires Valid() && entries != [] && Sorted(Order, entries)
      requires ReportFits(report) && Reports(loss.Abs(), now, v, report) && Reports(v, now, v, report)
      modifies loss`list, loss`statTs, strm, strm.data
      ensures Valid() && loss.Abs() == v && (strm.data == old(strm.data) || fresh(strm.data))
      ensures sent == Packets(entries, now, report)
    {
      sent := [];
      var start, samplers := entries[0].key, [];
      ghost var first := 0;
      NothingSent(entries, now, report);
      for i := 0 to |entries|
        invariant Valid() && Reports(loss.Abs(), now, v, report)
        invariant strm.data == old(strm.data) || fresh(strm.data)
        invariant Building(entries, first, i, start, samplers, now)
        invariant SentSoFar(sent, entries, first, now, report)
        modifies loss`list, loss`statTs, strm, strm.data
      {
        var e := entries[i];
        if start + SPAN > e.key {
          BuildingNext(entries, first, i, start, samplers, now);
          samplers := samplers + [SamplerOf(e, now)];
        } else {
          sent := SendNext(sent, samplers, now, entries, first, i, v, report);
          start, samplers, first := e.key, [SamplerOf(e, now)], i;
          BuildingFirst(entries, i, now);
        }
      }
      sent := SendNext(sent, samplers, now, entries, first, |entries|, v, report);
      AllSent(sent, entries, now, report);
    }

    /** Sends the message under construction, which cannot grow any more. */
    method SendNext(sent: seq<seq<byte>>, samplers: seq<Sampler>, now: int, ghost s: Arrivals,
                    ghost first: nat, ghost i: nat, ghost v: Window, ghost report: Option<Report>)
        returns (after: seq<seq<byte>>)
      requires Valid() && ReportFits(report) && Reports(loss.Abs(), now, v, report)
      requires Sorted(Order, s) && first < i <= |s| && Building(s, first, i, s[first].key, samplers, now)
      requires i < |s| ==> s[i].key >= s[first].key + SPAN
      requires SentSoFar(sent, s, first, now, report)
      modifies loss`list, loss`statTs, strm, strm.data
      ensures Valid() && loss.Abs() == v && (strm.data == old(strm.data) || fresh(strm.data))
      ensures SentSoFar(after, s, i, now, report)
    {
      GroupDone(s, first, i);
      var bytes := Send(2, samplers, now, s[first..i], v, report);
      SendGroup(sent, s, first, i, now, report);
      after := sent + [bytes];
    }

    method Flush(now: int) returns (sent: seq<seq<byte>>)
      requires Valid() && cache != []
      modifies this`feedbackTs, this`cache, loss`list, loss`statTs, strm, strm.data
      ensures Valid() && Abs() == Flushed(old(Abs()), now).0 && (strm.data == old(strm.data) || fresh(strm.data))
      ensures sent == Encoded(Flushed(old(Abs()), now).1)
    {
      ghost var r := Abs();
      ghost var v, report := AskedReport(r.loss, now);
      FlushedIs(r, now, v, report);
      sent := SendAll(cache, now, v, report);
      feedbackTs := now;
      cache := [];
    }

    /** Caches a number unless it is a duplicate. */
    method Store(number: int, now: int) returns (accepted: bool)
      requires Valid()
      modifies this`maxSeq, this`baseSeq, this`cache
      ensures Valid() && accepted == !Refused(old(Abs()), number)
      ensures Abs() == if accepted then Cached(old(Abs()), number, now) else old(Abs())
    {
      if maxSeq < number {
        maxSeq := number;
        if baseSeq == -1 {
          baseSeq := number;
          cache := [];
        }
      } else if SortedEntries.Has(Order, cache, number) {
        return false;
      }
      OrderIsTotal();
      InsertedSorted(Order, cache, number, now);
      cache := Inserted(Order, cache, number, now);
      accepted := true;
    }

    method Handle(number: int, now: int) returns (sent: seq<seq<byte>>)
      requires Valid()
      modifies this, loss`list, loss`statTs, strm, strm.data
      ensures Valid() && Abs() == Handled(old(Abs()), number, now).0
      ensures strm.data == old(strm.data) || fresh(strm.data)
      ensures sent == Encoded(Handled(old(Abs()), number, now).1)
    {
      sent := [];
      var accepted := Store(number, now);
      if accepted && (|cache| >= THRESHOLD || (|cache| > 2 && now > feedbackTs + INTERVAL)) {
        sent := Flush(now);
      }
    }

    /** bbr_receive_on_received. */
    method OnPacket(low: uint16, now: int) returns (sent: seq<seq<byte>>)
      requires Valid()
      modifies this, loss`maxId, loss`list, loss`statTs, loss.wrapper`lastValue, unwrapper`lastValue, strm, strm.data
      ensures Valid() && Abs() == OnReceived(old(Abs()), low, now).0
      ensures sent == Encoded(OnReceived(old(Abs()), low, now).1)
    {
      loss.Incoming(low, now);
      var number := unwrapper.Wrap16(low);
      assert Abs() == Heard(old(Abs()), low, now);
      sent := Handle(number, now);
    }
  }

  /** The loss window gives this report and becomes v. */
  predicate Reports(w: Window, now: int, v: Window, report: Option<Report>) { Calculated(w, now) == (v, report) }

  lemma AskedReport(w: Window, now: int) returns (v: Window, report: Option<Report>)
    ensures Reports(w, now, v, report) && Reports(v, now, v, report) && ReportFits(report)
  {
    CalculatedAgain(w, now);
    ReportAlwaysFits(w, now);
    v, report := Calculated(w, now).0, Calculated(w, now).1;
  }

  lemma FlushedIs(r: Receiver, now: int, v: Window, report: Option<Report>)
    requires Reports(r.loss, now, v, report) && ReportFits(report)
    ensures Flushed(r, now).0 == r.(feedbackTs := now, loss := v, cache := [])
    ensures Encoded(Flushed(r, now).1) == Packets(r.cache, now, report)
  {
  }

  method Compose(flag: byte, samplers: seq<Sampler>, report: Option<Report>, ghost g: Arrivals, ghost now: int)
      returns (m: Message)
    requires ReportFits(report) && GroupOk(g) && samplers == SamplersOf(g, now) && flag == 2
    ensures m == MessageOf(g, now, report) && FeedbackCodec.Ok(m)
  {
    MessageFits(g, now, report);
    if report.Some? {
      m := Message(flag + 1, report.value.fraction, report.value.number, samplers);
    } else {
      m := Message(flag, 0, 0, samplers);
    }
  }
}
