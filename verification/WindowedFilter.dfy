// The windowed extremum filter (ReCapABR/bbr/windowed_filter.c and windowed_filter.h).

/** The filter as a value, and what its three estimates say about the samples fed to it. */
module WindowFilters {

  datatype Sample = Sample(value: int, ts: int)

  datatype Filter = Filter(window: int, first: Sample, second: Sample, third: Sample)

  /** The two comparators: max_val_func and min_val_func. */
  datatype Order = Max | Min

  predicate Better(o: Order, v1: int, v2: int) {
    match o
    case Max => v1 >= v2
    case Min => v1 <= v2
  }

  function AllSet(f: Filter, s: Sample): Filter {
    f.(first := s, second := s, third := s)
  }

  /** The new sample replaces the estimates it beats. */
  function Improved(f: Filter, o: Order, s: Sample): Filter {
    if Better(o, s.value, f.second.value) then f.(second := s, third := s)
    else if Better(o, s.value, f.third.value) then f.(third := s)
    else f
  }

  /** An expired best is replaced by the next estimate, twice if need be. */
  function Expired(f: Filter, s: Sample): Filter {
    var g := f.(first := f.second, second := f.third, third := s);
    if s.ts - g.first.ts > f.window then g.(first := g.second, second := g.third) else g
  }

  /** Equal estimates that have grown old are renewed. */
  function Renewed(f: Filter, s: Sample): Filter {
    if f.first.value == f.second.value && s.ts - f.second.ts > f.window / 4 then f.(second := s, third := s)
    else if f.second.value == f.third.value && s.ts - f.third.ts > f.window / 2 then f.(third := s)
    else f
  }

  /** wnd_filter_update. */
  function Updated(f: Filter, o: Order, s: Sample): Filter {
    if f.first.value == 0 || Better(o, s.value, f.first.value) || s.ts - f.third.ts > f.window then AllSet(f, s)
    else
      var g := Improved(f, o, s);
      if s.ts - g.first.ts > g.window then Expired(g, s) else Renewed(g, s)
  }

  // ---- what was fed ----

  /** Times do not decrease. */
  predicate InTime(h: seq<Sample>) {
    forall i, j :: 0 <= i <= j < |h| ==> h[i].ts <= h[j].ts
  }

  /** Sample k is at least as good as every sample fed at or after it. */
  predicate Dominates(o: Order, h: seq<Sample>, k: nat) {
    k < |h| && forall j :: k <= j < |h| ==> Better(o, h[k].value, h[j].value)
  }

  /** Position k holds a sample: any but the zero that a start or a reset leaves, once others were fed. */
  predicate IsSample(h: seq<Sample>, k: nat) {
    k < |h| && (k > 0 || |h| == 1 || h[0].value != 0)
  }

  /** The estimates are samples k0, k1 and k2. */
  predicate Marked(f: Filter, o: Order, h: seq<Sample>, k0: nat, k1: nat, k2: nat) {
    && k0 <= k1 <= k2 < |h|
    && f.first == h[k0] && f.second == h[k1] && f.third == h[k2]
    && Dominates(o, h, k0) && Dominates(o, h, k1) && Dominates(o, h, k2)
    && IsSample(h, k0)
  }

  ghost predicate Tracks(f: Filter, o: Order, h: seq<Sample>) {
    InTime(h) && exists k0, k1, k2 :: Marked(f, o, h, k0, k1, k2)
  }

  lemma DominatesNext(o: Order, h: seq<Sample>, k: nat, s: Sample)
    requires Dominates(o, h, k) && !Better(o, s.value, h[k].value)
    ensures Dominates(o, h + [s], k)
  {
  }

  lemma LastDominates(o: Order, h: seq<Sample>, s: Sample)
    ensures Dominates(o, h + [s], |h|)
  {
  }

  /** The estimates after an update, as positions in the longer history. */
  lemma UpdateMarks(f: Filter, o: Order, h: seq<Sample>, k0: nat, k1: nat, k2: nat, s: Sample)
      returns (j0: nat, j1: nat, j2: nat)
    requires Marked(f, o, h, k0, k1, k2)
    ensures Marked(Updated(f, o, s), o, h + [s], j0, j1, j2)
    ensures j0 >= k0 && j1 >= k1 && j2 >= k2
  {
    var n := |h|;
    LastDominates(o, h, s);
    if f.first.value == 0 || Better(o, s.value, f.first.value) || s.ts - f.third.ts > f.window {
      return n, n, n;
    }
    DominatesNext(o, h, k0, s);
    j0 := k0;
    if Better(o, s.value, f.second.value) {
      j1, j2 := n, n;
    } else {
      DominatesNext(o, h, k1, s);
      j1 := k1;
      if Better(o, s.value, f.third.value) {
        j2 := n;
      } else {
        DominatesNext(o, h, k2, s);
        j2 := k2;
      }
    }
    var g := Improved(f, o, s);
    assert Marked(g, o, h + [s], j0, j1, j2);
    if s.ts - g.first.ts > g.window {
      j0, j1, j2 := j1, j2, n;
      if s.ts - g.second.ts > g.window {
        j0, j1 := j1, j2;
      }
    } else if g.first.value == g.second.value && s.ts - g.second.ts > g.window / 4 {
      j1, j2 := n, n;
    } else if g.second.value == g.third.value && s.ts - g.third.ts > g.window / 2 {
      j2 := n;
    }
  }

  lemma UpdateTracks(f: Filter, o: Order, h: seq<Sample>, s: Sample)
    requires Tracks(f, o, h) && s.ts >= h[|h| - 1].ts
    ensures Tracks(Updated(f, o, s), o, h + [s])
  {
    var k0, k1, k2 :| Marked(f, o, h, k0, k1, k2);
    var j0, j1, j2 := UpdateMarks(f, o, h, k0, k1, k2, s);
    assert Marked(Updated(f, o, s), o, h + [s], j0, j1, j2);
  }

  function Positive(n: int): int { if n < 0 then 0 else n }

  /** After an update the best is no older than the window. */
  lemma UpdateIsRecent(f: Filter, o: Order, h: seq<Sample>, s: Sample)
    requires Tracks(f, o, h) && s.ts >= h[|h| - 1].ts
    ensures 0 <= s.ts - Updated(f, o, s).first.ts <= Positive(f.window)
  {
  }

  // ---- runs ----

  datatype Op = Feed(sample: Sample) | Reset(sample: Sample) | Resize(window: int)

  /** The filter, and the samples fed since the last reset, which counts as the first of them. */
  datatype State = State(filter: Filter, fed: seq<Sample>)

  function Start(window: int): State {
    State(Filter(window, Sample(0, 0), Sample(0, 0), Sample(0, 0)), [Sample(0, 0)])
  }

  function Step(st: State, o: Order, op: Op): State {
    match op
    case Feed(s) => State(Updated(st.filter, o, s), st.fed + [s])
    case Reset(s) => State(AllSet(st.filter, s), [s])
    case Resize(w) => st.(filter := st.filter.(window := w))
  }

  predicate Enabled(st: State, op: Op) {
    op.Feed? && st.fed != [] ==> op.sample.ts >= st.fed[|st.fed| - 1].ts
  }

  predicate Feasible(st: State, o: Order, ops: seq<Op>)
    decreases |ops|
  {
    ops == [] || (Enabled(st, ops[0]) && Feasible(Step(st, o, ops[0]), o, ops[1..]))
  }

  function Run(st: State, o: Order, ops: seq<Op>): State
    decreases |ops|
  {
    if ops == [] then st else Run(Step(st, o, ops[0]), o, ops[1..])
  }

  lemma {:induction false} RunTracks(st: State, o: Order, ops: seq<Op>)
    requires Tracks(st.filter, o, st.fed) && Feasible(st, o, ops)
    ensures Tracks(Run(st, o, ops).filter, o, Run(st, o, ops).fed)
    decreases |ops|
  {
    if ops != [] {
      var next := Step(st, o, ops[0]);
      match ops[0] {
        case Feed(s) => UpdateTracks(st.filter, o, st.fed, s);
        case Reset(s) => assert Marked(next.filter, o, next.fed, 0, 0, 0);
        case Resize(w) =>
          var k0, k1, k2 :| Marked(st.filter, o, st.fed, k0, k1, k2);
          assert Marked(next.filter, o, next.fed, k0, k1, k2);
      }
      RunTracks(next, o, ops[1..]);
    }
  }

  /** The estimates are ordered: best first in value, oldest first in time. */
  predicate InOrder(f: Filter, o: Order) {
    && Better(o, f.first.value, f.second.value) && Better(o, f.second.value, f.third.value)
    && f.first.ts <= f.second.ts <= f.third.ts
  }

  /** The estimate is a sample, no mere placeholder, and the best of those fed from its position on. */
  ghost predicate BestSince(e: Sample, o: Order, h: seq<Sample>) {
    exists k: nat :: Dominates(o, h, k) && h[k] == e && IsSample(h, k)
  }

  /**
   * Every run, either comparator: ordered estimates, each a sample that nothing fed later beats.
   * After one sample since a start or a reset to zero, none of the three is the placeholder.
   */
  lemma RunsKeepEstimates(window: int, o: Order, ops: seq<Op>)
    requires Feasible(Start(window), o, ops)
    ensures var st := Run(Start(window), o, ops);
      && InOrder(st.filter, o)
      && BestSince(st.filter.first, o, st.fed)
      && BestSince(st.filter.second, o, st.fed)
      && BestSince(st.filter.third, o, st.fed)
  {
    var st := Start(window);
    assert Marked(st.filter, o, st.fed, 0, 0, 0);
    RunTracks(st, o, ops);
    var end := Run(st, o, ops);
    var k0, k1, k2 :| Marked(end.filter, o, end.fed, k0, k1, k2);
  }

  /** Every run that ends by feeding a sample: the best lies inside the window. */
  lemma RunsStayInWindow(window: int, o: Order, ops: seq<Op>, s: Sample)
    requires Feasible(Start(window), o, ops) && Enabled(Run(Start(window), o, ops), Feed(s))
    ensures var st := Run(Start(window), o, ops);
      0 <= s.ts - Updated(st.filter, o, s).first.ts <= Positive(st.filter.window)
  {
    var st := Start(window);
    assert Marked(st.filter, o, st.fed, 0, 0, 0);
    RunTracks(st, o, ops);
    UpdateIsRecent(Run(st, o, ops).filter, o, Run(st, o, ops).fed, s);
  }

  // ---- when the best is the exact extremum of the window ----

  /** The best beats or equals every nonzero sample fed at time t or later. */
  predicate BestFrom(f: Filter, o: Order, h: seq<Sample>, t: int) {
    forall j :: 0 <= j < |h| && h[j].value != 0 && h[j].ts >= t ==> Better(o, f.first.value, h[j].value)
  }

  /** The best is the exact extremum of the window that ends with the last sample. */
  predicate Exact(f: Filter, o: Order, h: seq<Sample>)
    requires h != []
  {
    BestFrom(f, o, h, h[|h| - 1].ts - f.window)
  }

  /** Only a placeholder is 0. */
  predicate NonZero(f: Filter, h: seq<Sample>) {
    && h != []
    && (f.first.value == 0 ==> |h| == 1)
    && (forall j :: 0 < j < |h| ==> h[j].value != 0)
  }

  /** No nonzero sample fed between positions i and k and still inside the window at time t beats sample k. */
  predicate NoneBetter(o: Order, h: seq<Sample>, i: nat, k: nat, t: int)
    requires k < |h|
  {
    forall j :: i < j < k && h[j].value != 0 && h[j].ts >= t ==> Better(o, h[k].value, h[j].value)
  }

  /**
   * What one update does to exactness. While the best has not expired, nothing is lost. When it has, the best is
   * exact if and only if no sample still inside the window that was fed between the old best and the new one
   * beats the new one.
   */
  lemma UpdateIsExactIff(f: Filter, o: Order, h: seq<Sample>, k0: nat, k1: nat, k2: nat, s: Sample, t: int)
      returns (j0: nat)
    requires Marked(f, o, h, k0, k1, k2) && NonZero(f, h) && InTime(h + [s]) && s.value != 0
    ensures k0 <= j0 <= |h| && Updated(f, o, s).first == (h + [s])[j0]
    ensures s.ts - f.first.ts <= f.window && BestFrom(f, o, h, t) ==> BestFrom(Updated(f, o, s), o, h + [s], t)
    ensures s.ts - f.first.ts > f.window
      ==> (Exact(Updated(f, o, s), o, h + [s]) <==> NoneBetter(o, h + [s], k0, j0, s.ts - f.window))
  {
    var g, l := Updated(f, o, s), h + [s];
    var j1, j2;
    j0, j1, j2 := UpdateMarks(f, o, h, k0, k1, k2, s);
    assert l[k0] == h[k0] && l[k2] == h[k2];
    if s.ts - f.first.ts <= f.window {
      if BestFrom(f, o, h, t) {
        StaysBest(f, o, h, s, t);
      }
    } else {
      OlderAreOut(l, k0, s.ts - f.window);
    }
  }

  lemma OlderAreOut(h: seq<Sample>, k: nat, t: int)
    requires InTime(h) && k < |h| && h[k].ts < t
    ensures forall j :: 0 <= j <= k ==> h[j].ts < t
  {
  }

  lemma StaysBest(f: Filter, o: Order, h: seq<Sample>, s: Sample, t: int)
    requires NonZero(f, h) && BestFrom(f, o, h, t)
    requires s.ts - f.first.ts <= f.window && f.first.ts <= f.third.ts
    requires f.first.value == 0 ==> h[0].value == 0
    ensures BestFrom(Updated(f, o, s), o, h + [s], t)
  {
    var g, l := Updated(f, o, s), h + [s];
    forall j | 0 <= j < |l| && l[j].value != 0 && l[j].ts >= t ensures Better(o, g.first.value, l[j].value) {
      assert j < |h| ==> l[j] == h[j];
    }
  }

  /** The time of the oldest sample, once the placeholder is set aside. */
  function OldestTime(h: seq<Sample>): int
    requires h != []
  {
    if IsSample(h, 0) then h[0].ts else h[1].ts
  }

  /** The time that the samples since the last start or reset cover. */
  function Span(h: seq<Sample>): int
    requires h != []
  {
    h[|h| - 1].ts - OldestTime(h)
  }

  /** Every fed sample is nonzero and no more than the window younger than the oldest since the last reset. */
  predicate Short(st: State, o: Order, ops: seq<Op>)
    requires st.fed != []
    decreases |ops|
  {
    || ops == []
    || (&& (ops[0].Feed? ==> ops[0].sample.value != 0 && Span(st.fed + [ops[0].sample]) <= st.filter.window)
        && Short(Step(st, o, ops[0]), o, ops[1..]))
  }

  /** The best beats or equals all samples since the last reset. */
  ghost predicate BestOfAll(st: State, o: Order) {
    Tracks(st.filter, o, st.fed) && NonZero(st.filter, st.fed) && BestFrom(st.filter, o, st.fed, st.fed[0].ts)
  }

  lemma FeedBestOfAll(st: State, o: Order, s: Sample)
    requires BestOfAll(st, o) && s.ts >= st.fed[|st.fed| - 1].ts && s.value != 0
    requires Span(st.fed + [s]) <= st.filter.window
    ensures BestOfAll(Step(st, o, Feed(s)), o)
  {
    var f, h := st.filter, st.fed;
    var k0, k1, k2 :| Marked(f, o, h, k0, k1, k2);
    UpdateTracks(f, o, h, s);
    assert (h + [s])[0] == h[0];
    if |h| > 1 || h[0].value != 0 {
      OldestIsFirst(h, k0, s);
      var _ := UpdateIsExactIff(f, o, h, k0, k1, k2, s, h[0].ts);
    }
  }

  lemma OldestIsFirst(h: seq<Sample>, k: nat, s: Sample)
    requires InTime(h) && IsSample(h, k) && (|h| > 1 || h[0].value != 0)
    ensures OldestTime(h + [s]) == OldestTime(h) <= h[k].ts
  {
    assert |h| > 1 ==> (h + [s])[1] == h[1];
  }

  lemma {:induction false} RunBestOfAll(st: State, o: Order, ops: seq<Op>)
    requires BestOfAll(st, o) && Feasible(st, o, ops) && Short(st, o, ops)
    ensures BestOfAll(Run(st, o, ops), o)
    decreases |ops|
  {
    if ops != [] {
      var next := Step(st, o, ops[0]);
      match ops[0] {
        case Feed(s) => FeedBestOfAll(st, o, s);
        case Reset(s) => assert Marked(next.filter, o, next.fed, 0, 0, 0);
        case Resize(w) =>
          var k0, k1, k2 :| Marked(st.filter, o, st.fed, k0, k1, k2);
          assert Marked(next.filter, o, next.fed, k0, k1, k2);
      }
      RunBestOfAll(next, o, ops[1..]);
    }
  }

  /**
   * Every run, resets and changes of the window included: while the nonzero samples since the last reset span no
   * more than the window, the best beats or equals every one of them.
   */
  lemma ShortRunsAreExact(window: int, o: Order, ops: seq<Op>)
    requires Feasible(Start(window), o, ops) && Short(Start(window), o, ops)
    ensures var st := Run(Start(window), o, ops);
      forall j :: 0 <= j < |st.fed| && st.fed[j].value != 0 ==> Better(o, st.filter.first.value, st.fed[j].value)
  {
    var st := Start(window);
    assert Marked(st.filter, o, st.fed, 0, 0, 0);
    RunBestOfAll(st, o, ops);
    var fed := Run(st, o, ops).fed;
    assert forall j :: 0 <= j < |fed| ==> fed[0].ts <= fed[j].ts;
  }

  // ---- the longest span over which every run is exact ----

  predicate Feeds(ops: seq<Op>) {
    forall i :: 0 <= i < |ops| ==> ops[i].Feed? && ops[i].sample.value != 0
  }

  /** Every run that feeds nonzero samples over a span of at most d ends with the exact extremum of its window. */
  ghost predicate AlwaysExact(window: int, o: Order, d: int) {
    forall ops :: Feeds(ops) && Feasible(Start(window), o, ops) && Covers(Run(Start(window), o, ops), d)
      ==> ExactAtEnd(Run(Start(window), o, ops), o)
  }

  predicate Covers(st: State, d: int) {
    st.fed != [] && Span(st.fed) <= d
  }

  predicate ExactAtEnd(st: State, o: Order) {
    st.fed != [] && Exact(st.filter, o, st.fed)
  }

  predicate SafeSpan(window: int, d: int) {
    window <= 0 || d <= window || (window < 4 && d <= window + 1)
  }

  /**
   * In a small window the second estimate takes over from the oldest samples, at time t: it is newer than they
   * are, and beats all that is newer, unless the best is newer itself.
   */
  predicate SecondReady(f: Filter, o: Order, h: seq<Sample>, t: int)
    requires h != []
  {
    && (f.first.value == f.second.value ==> f.first.ts == f.second.ts)
    && (h[|h| - 1].ts == t ==> f.first == f.second == f.third)
    && (h[|h| - 1].ts > t ==>
          && f.second.ts > t
          && (f.first.ts > t || forall j :: 0 <= j < |h| && h[j].ts > t ==> Better(o, f.second.value, h[j].value)))
  }

  /** What the estimates know while the samples cover a safe span. */
  predicate Knows(f: Filter, o: Order, h: seq<Sample>)
    requires |h| > 1
  {
    var span := h[|h| - 1].ts - h[1].ts;
    && h[|h| - 1].ts - f.first.ts <= Positive(f.window)
    && (SafeSpan(f.window, span) ==> Exact(f, o, h))
    && (0 < f.window && span <= f.window ==> BestFrom(f, o, h, h[1].ts))
    && (0 < f.window < 4 && span <= f.window ==> SecondReady(f, o, h, h[1].ts))
  }

  /** What a run of nonzero samples keeps. */
  ghost predicate Sound(f: Filter, o: Order, h: seq<Sample>) {
    Tracks(f, o, h) && NonZero(f, h) && h[0].value == 0 && (|h| > 1 ==> Knows(f, o, h))
  }

  lemma EstimateTimes(f: Filter, o: Order, h: seq<Sample>)
    requires Tracks(f, o, h) && |h| > 1 && h[0].value == 0
    ensures h[1].ts <= f.first.ts <= f.second.ts <= f.third.ts <= h[|h| - 1].ts
    ensures InOrder(f, o)
  {
    var k0, k1, k2 :| Marked(f, o, h, k0, k1, k2);
  }

  lemma FeedSecondReady(f: Filter, o: Order, h: seq<Sample>, s: Sample, t: int)
    requires |h| > 1 && InOrder(f, o) && BestFrom(f, o, h, t) && SecondReady(f, o, h, t)
    requires h[0].ts <= t && forall j :: 0 < j < |h| ==> h[j].value != 0
    requires t <= f.first.ts && f.third.ts <= h[|h| - 1].ts <= s.ts <= t + f.window && 0 < f.window < 4
    requires f.first.value != 0 && InTime(h)
    ensures SecondReady(Updated(f, o, s), o, h + [s], t)
  {
    var g, l := Updated(f, o, s), h + [s];
    assert forall j :: 0 <= j < |h| ==> l[j] == h[j];
    if g.first.ts <= t && s.ts > t {
      forall j | 0 <= j < |l| && l[j].ts > t ensures Better(o, g.second.value, l[j].value) {
      }
    }
  }

  lemma FeedNoWindow(f: Filter, o: Order, h: seq<Sample>, s: Sample)
    requires Tracks(f, o, h) && NonZero(f, h) && |h| > 1 && h[0].value == 0 && Exact(f, o, h)
    requires InTime(h + [s]) && s.value != 0 && f.window <= 0
    requires h[|h| - 1].ts - f.first.ts <= 0
    ensures Exact(Updated(f, o, s), o, h + [s])
  {
    var l := h + [s];
    EstimateTimes(f, o, h);
    assert l[|h| - 1].ts <= l[|h|].ts;
    if f.window == 0 && s.ts == h[|h| - 1].ts {
      StaysBest(f, o, h, s, s.ts);
    } else {
      assert s.ts - f.third.ts > f.window;
    }
  }

  /** The best expires in a small window as the second estimate is ready. */
  lemma FeedBeyond(f: Filter, o: Order, h: seq<Sample>, s: Sample, t: int)
    requires |h| > 1 && InOrder(f, o) && NonZero(f, h) && InTime(h) && SecondReady(f, o, h, t)
    requires h[|h| - 1].ts <= t + f.window && s.ts == t + f.window + 1 && 0 < f.window < 4
    requires f.first.ts == t && f.third.ts <= h[|h| - 1].ts && t <= h[|h| - 1].ts
    ensures Exact(Updated(f, o, s), o, h + [s])
  {
    var g, l := Updated(f, o, s), h + [s];
    assert forall j :: 0 <= j < |h| ==> l[j] == h[j] && h[j].ts <= h[|h| - 1].ts;
  }

  lemma FeedExact(f: Filter, o: Order, h: seq<Sample>, s: Sample)
    requires Sound(f, o, h) && |h| > 1 && InTime(h + [s]) && s.value != 0
    requires SafeSpan(f.window, s.ts - h[1].ts)
    ensures Exact(Updated(f, o, s), o, h + [s])
    ensures 0 < f.window && s.ts - h[1].ts <= f.window ==> BestFrom(Updated(f, o, s), o, h + [s], h[1].ts)
  {
    EstimateTimes(f, o, h);
    assert (h + [s])[|h| - 1].ts <= (h + [s])[|h|].ts;
    if f.window <= 0 {
      FeedNoWindow(f, o, h, s);
    } else if s.ts - h[1].ts <= f.window {
      StaysBest(f, o, h, s, h[1].ts);
      StaysBest(f, o, h, s, s.ts - f.window);
    } else if s.ts - f.first.ts <= f.window {
      StaysBest(f, o, h, s, s.ts - f.window);
    } else {
      FeedBeyond(f, o, h, s, h[1].ts);
    }
  }

  lemma FeedKnows(f: Filter, o: Order, h: seq<Sample>, s: Sample)
    requires Sound(f, o, h) && |h| > 1 && InTime(h + [s]) && s.value != 0
    requires s.ts - Updated(f, o, s).first.ts <= Positive(f.window)
    ensures Knows(Updated(f, o, s), o, h + [s])
  {
    assert (h + [s])[1] == h[1];
    assert (h + [s])[|h| - 1].ts <= (h + [s])[|h|].ts;
    if SafeSpan(f.window, s.ts - h[1].ts) {
      FeedExact(f, o, h, s);
    }
    if 0 < f.window < 4 && s.ts - h[1].ts <= f.window {
      FeedReady(f, o, h, s);
    }
  }

  lemma FeedReady(f: Filter, o: Order, h: seq<Sample>, s: Sample)
    requires Sound(f, o, h) && |h| > 1 && InTime(h + [s]) && 0 < f.window < 4 && s.ts - h[1].ts <= f.window
    ensures SecondReady(Updated(f, o, s), o, h + [s], h[1].ts)
  {
    EstimateTimes(f, o, h);
    assert (h + [s])[|h| - 1].ts <= (h + [s])[|h|].ts;
    FeedSecondReady(f, o, h, s, h[1].ts);
  }

  lemma FeedSound(f: Filter, o: Order, h: seq<Sample>, s: Sample)
    requires Sound(f, o, h) && s.ts >= h[|h| - 1].ts && s.value != 0
    ensures Sound(Updated(f, o, s), o, h + [s])
  {
    UpdateTracks(f, o, h, s);
    UpdateIsRecent(f, o, h, s);
    if |h| > 1 {
      FeedKnows(f, o, h, s);
    }
  }

  lemma {:induction false} RunSound(st: State, o: Order, ops: seq<Op>)
    requires Sound(st.filter, o, st.fed) && Feeds(ops) && Feasible(st, o, ops)
    ensures var end := Run(st, o, ops);
      Sound(end.filter, o, end.fed) && end.filter.window == st.filter.window
    decreases |ops|
  {
    if ops != [] {
      FeedSound(st.filter, o, st.fed, ops[0].sample);
      RunSound(Step(st, o, ops[0]), o, ops[1..]);
    }
  }

  /** Five values from the best to the worst, for either comparator. */
  function Ranked(o: Order, rank: nat): int
    requires rank < 5
  {
    match o
    case Max => 10 - rank
    case Min => 1 + rank
  }

  lemma RunFirst(st: State, o: Order, op: Op, ops: seq<Op>)
    ensures Run(st, o, [op] + ops) == Run(Step(st, o, op), o, ops)
    ensures Feasible(st, o, [op] + ops) <==> Enabled(st, op) && Feasible(Step(st, o, op), o, ops)
  {
    assert ([op] + ops)[1..] == ops;
  }

  function FedAt(o: Order, rank: nat, ts: int): Op
    requires rank < 5
  {
    Feed(Sample(Ranked(o, rank), ts))
  }

  /** In a window of 4 or more, a sample fed soon after the best is lost when the best expires. */
  lemma LostNextToBest(window: int, o: Order) returns (ops: seq<Op>)
    requires window >= 4
    ensures Feeds(ops) && Feasible(Start(window), o, ops) && Covers(Run(Start(window), o, ops), window + 1)
    ensures !ExactAtEnd(Run(Start(window), o, ops), o)
  {
    var a, b := FedAt(o, 0, 0), FedAt(o, 1, 1);
    var c, d := FedAt(o, 2, window / 4 + 1), FedAt(o, 3, window + 1);
    ops := [a] + ([b] + ([c] + ([d] + [])));
    var s0 := Start(window);
    var s1 := Step(s0, o, a);
    var s2 := Step(s1, o, b);
    var s3 := Step(s2, o, c);
    var s4 := Step(s3, o, d);
    RunFirst(s0, o, a, [b] + ([c] + ([d] + [])));
    RunFirst(s1, o, b, [c] + ([d] + []));
    RunFirst(s2, o, c, [d] + []);
    RunFirst(s3, o, d, []);
    assert s2.filter == s1.filter;
    assert s4.fed[2] == b.sample && s4.filter.first == c.sample;
  }

  /**
   * In any window a sample of age 1 can be lost. The second value becomes the best when the first expires, the
   * fourth replaces the third, as the best is by then older than a quarter of the window, and it becomes the best
   * when the second expires.
   */
  lemma LostBesideBest(window: int, o: Order, age: int) returns (ops: seq<Op>)
    requires window >= 1 && window / 4 < age <= window
    ensures Feeds(ops) && Feasible(Start(window), o, ops)
    ensures Covers(Run(Start(window), o, ops), age + window + 1)
    ensures var st := Run(Start(window), o, ops);
      && !ExactAtEnd(st, o) && |st.fed| == 6 && st.fed[5].ts - st.fed[3].ts == 1
      && !Better(o, st.filter.first.value, st.fed[3].value)
  {
    var a, b, c := FedAt(o, 0, 0), FedAt(o, 1, age), FedAt(o, 2, age + window);
    var d, e := FedAt(o, 3, age + window), FedAt(o, 4, age + window + 1);
    ops := [a] + ([b] + ([c] + ([d] + ([e] + []))));
    var s0 := Start(window);
    var s1 := Step(s0, o, a);
    var s2 := Step(s1, o, b);
    var s3 := Step(s2, o, c);
    var s4 := Step(s3, o, d);
    var s5 := Step(s4, o, e);
    RunFirst(s0, o, a, [b] + ([c] + ([d] + ([e] + []))));
    RunFirst(s1, o, b, [c] + ([d] + ([e] + [])));
    RunFirst(s2, o, c, [d] + ([e] + []));
    RunFirst(s3, o, d, [e] + []);
    RunFirst(s4, o, e, []);
    assert s2.filter == Filter(window, a.sample, b.sample, b.sample);
    assert s3.filter == Filter(window, b.sample, b.sample, c.sample);
    assert s4.filter == Filter(window, b.sample, d.sample, d.sample);
    assert s5.fed[3] == c.sample && s5.filter.first == d.sample;
  }

  /**
   * The best is the exact extremum in all runs of nonzero samples over a span of at most d if and only if d is at
   * most the window, or one more in a window below 4, or there is no window.
   */
  lemma AlwaysExactIff(window: int, o: Order, d: int)
    ensures AlwaysExact(window, o, d) <==> SafeSpan(window, d)
  {
    var start := Start(window);
    if SafeSpan(window, d) {
      assert Marked(start.filter, o, start.fed, 0, 0, 0);
      forall ops | Feeds(ops) && Feasible(start, o, ops) && Covers(Run(start, o, ops), d)
        ensures ExactAtEnd(Run(start, o, ops), o)
      {
        RunSound(start, o, ops);
      }
    } else if window >= 4 {
      var _ := LostNextToBest(window, o);
    } else {
      var _ := LostBesideBest(window, o, 1);
    }
  }
}

/** The filter object with its array of three estimates. */
module WindowedFilters {
  import opened WindowFilters

  class WindowedFilter {
    var window: int
    const order: Order
    const estimates: array<Sample>

    ghost predicate Valid()
      reads this
    {
      estimates.Length == 3
    }

    ghost function Abs(): Filter
      reads this, estimates
      requires Valid()
    {
      Filter(window, estimates[0], estimates[1], estimates[2])
    }

    /** wnd_filter_init. */
    constructor (window: int, order: Order)
      ensures Valid() && Abs() == Start(window).filter && this.order == order && fresh(estimates)
    {
      this.window, this.order := window, order;
      estimates := new Sample[3](_ => Sample(0, 0));
    }

    method Reset(value: int, ts: int)
      requires Valid()
      modifies estimates
      ensures Abs() == AllSet(old(Abs()), Sample(value, ts))
    {
      for i := 0 to 3
        invariant forall j :: 0 <= j < i ==> estimates[j] == Sample(value, ts)
      {
        estimates[i] := Sample(value, ts);
      }
    }

    method SetWindowSize(size: int)
      requires Valid()
      modifies this`window
      ensures Abs() == old(Abs()).(window := size)
    {
      window := size;
    }

    method Update(value: int, ts: int)
      requires Valid()
      modifies estimates
      ensures Abs() == Updated(old(Abs()), order, Sample(value, ts))
    {
      var sample := Sample(value, ts);
      if estimates[0].value == 0 || Better(order, value, estimates[0].value) || ts - estimates[2].ts > window {
        Reset(value, ts);
        return;
      }
      if Better(order, value, estimates[1].value) {
        estimates[1] := sample;
        estimates[2] := sample;
      } else if Better(order, value, estimates[2].value) {
        estimates[2] := sample;
      }
      if ts - estimates[0].ts > window {
        estimates[0] := estimates[1];
        estimates[1] := estimates[2];
        estimates[2] := sample;
        if ts - estimates[0].ts > window {
          estimates[0] := estimates[1];
          estimates[1] := estimates[2];
        }
        return;
      }
      if estimates[0].value == estimates[1].value && ts - estimates[1].ts > window / 4 {
        estimates[1], estimates[2] := sample, sample;
        return;
      }
      if estimates[1].value == estimates[2].value && ts - estimates[2].ts > window / 2 {
        estimates[2] := sample;
      }
    }
  }
}
