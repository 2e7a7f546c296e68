// How the floor of the reassembly ring moves in every run (ReCapABR/sim_transport/sim_receiver.c).

/** The ring's floor, newest frame and floor of packet ids, in terms of what was sent and has arrived. */
module PlaybackFloors {
  import opened Wrappers
  import opened Segments
  import opened Fragmenter
  import opened Reassembly
  import opened Playback

  lemma Reachable(sent: Sent, events: seq<Event>)
    requires Feasible(sent, START, events)
    ensures Inv(sent, Run(sent, START, events))
  {
    RunKeeps(sent, START, events);
  }

  // ---- what the ring holds ----

  ghost predicate SomeArrived(st: State, f: nat) {
    exists i :: (f, i) in st.seen
  }

  /** A segment of frame f arrived, and f was sent as a key frame. */
  ghost predicate KeyArrived(sent: Sent, st: State, f: nat) {
    f in sent && sent[f].ftype == 1 && SomeArrived(st, f)
  }

  lemma InRing(sent: Sent, st: State, f: nat)
    requires Inv(sent, st) && f > st.cache.minFid
    ensures f in st.cache.frames <==> SomeArrived(st, f)
    ensures IsKey(st.cache, f) <==> KeyArrived(sent, st, f)
  {
    if f in st.cache.frames {
      var s := st.cache.frames[f];
      CountAtMost(s.segments);
      var i :| 0 <= i < |s.segments| && s.segments[i].Some?;
      assert Mirrors(sent, st.seen, s);
      assert (f, i) in st.seen;
    }
  }

  /** In every run the ring holds exactly the frames above the floor of which a segment arrived, as they were sent. */
  lemma RingHolds(sent: Sent, events: seq<Event>, f: nat)
    requires Feasible(sent, START, events)
    ensures var st := Run(sent, START, events); var c := st.cache;
      && (f in c.frames <==> f > c.minFid && SomeArrived(st, f))
      && (f in c.frames ==>
            f in sent && c.frames[f].ftype == sent[f].ftype && c.frames[f].ts == sent[f].timestamp)
  {
    var st := Run(sent, START, events);
    Reachable(sent, events);
    if f > st.cache.minFid { InRing(sent, st, f); }
    if f in st.cache.frames { assert Mirrors(sent, st.seen, st.cache.frames[f]); }
  }

  // ---- the newest frame ----

  ghost predicate NewestOk(st: State) {
    && (forall p :: p in st.seen ==> p.0 <= st.cache.maxFid)
    && (st.cache.maxFid > 0 ==> SomeArrived(st, st.cache.maxFid))
  }

  function Larger(a: nat, b: nat): nat { if a < b then b else a }

  lemma PutNewest(c: Cache, g: Segment)
    requires CacheOk(c) && CanPut(c, g) && g.index < g.total
    ensures Put(c, g).0.maxFid == if g.fid <= c.minFid then c.maxFid else Larger(c.maxFid, g.fid)
  {
    if g.fid > c.minFid { AdvanceOk(c, g.fid); }
  }

  lemma GetNewest(c: Cache, room: nat, playing: bool, late: bool, due: bool)
    requires CacheOk(c)
    ensures Get(c, room, playing, late, due).0.maxFid == c.maxFid
  {
    EvictGopOk(c);
  }

  lemma ArriveNewest(sent: Sent, st: State, f: nat, i: nat)
    requires Enabled(sent, st, Arrive(f, i)) && Inv(sent, st) && NewestOk(st)
    ensures NewestOk(Step(sent, st, Arrive(f, i)))
  {
    var c, z := st.cache, Step(sent, st, Arrive(f, i));
    if CanPut(c, SegmentOf(sent[f], i)) {
      PutNewest(c, SegmentOf(sent[f], i));
      assert (f, i) in z.seen;
      if c.maxFid > 0 {
        var j :| (c.maxFid, j) in st.seen;
        assert (c.maxFid, j) in z.seen;
      }
    }
  }

  lemma StepNewest(sent: Sent, st: State, e: Event)
    requires Enabled(sent, st, e) && Inv(sent, st) && NewestOk(st)
    ensures NewestOk(Step(sent, st, e))
  {
    if e.Arrive? {
      ArriveNewest(sent, st, e.fid, e.index);
    } else {
      var z := Step(sent, st, e);
      GetNewest(st.cache, e.room, e.playing, e.late, e.due);
      assert z.seen == st.seen && z.cache.maxFid == st.cache.maxFid;
      if st.cache.maxFid > 0 {
        var j :| (st.cache.maxFid, j) in st.seen;
        assert (z.cache.maxFid, j) in z.seen;
      }
    }
  }

  lemma {:induction false} RunNewest(sent: Sent, st: State, events: seq<Event>)
    requires Inv(sent, st) && NewestOk(st) && Feasible(sent, st, events)
    ensures NewestOk(Run(sent, st, events))
    decreases |events|
  {
    if events != [] {
      StepKeeps(sent, st, events[0]);
      StepNewest(sent, st, events[0]);
      RunNewest(sent, Step(sent, st, events[0]), events[1..]);
    }
  }

  /** In every run the newest frame number is the largest of which a segment arrived, and 0 before any did. */
  lemma NewestArrived(sent: Sent, events: seq<Event>)
    requires Feasible(sent, START, events)
    ensures var st := Run(sent, START, events);
      && (forall p :: p in st.seen ==> p.0 <= st.cache.maxFid)
      && (st.cache.maxFid > 0 ==> SomeArrived(st, st.cache.maxFid))
  {
    RunNewest(sent, START, events);
  }

  // ---- a fetch ----

  /** k is the first key frame of which a segment arrived, from lo on and before the newest frame. */
  ghost predicate NextKeyFrame(sent: Sent, st: State, lo: nat, k: nat) {
    lo <= k < st.cache.maxFid && KeyArrived(sent, st, k) && forall f :: lo <= f < k ==> !KeyArrived(sent, st, f)
  }

  ghost predicate NextInBacklog(sent: Sent, st: State, k: nat) {
    NextKeyFrame(sent, st, st.cache.minFid + 2, k)
  }

  /** Where a fetch looks: just above the floor, or with a long backlog at the next key frame, if there is one. */
  ghost predicate FetchesFrom(sent: Sent, st: State, late: bool, floor: nat) {
    if late && floor != st.cache.minFid then NextInBacklog(sent, st, floor + 1)
    else floor == st.cache.minFid && (late ==> forall k :: !NextInBacklog(sent, st, k))
  }

  /** All segments of frame f arrived. */
  predicate AllArrived(sent: Sent, st: State, f: nat) {
    f in sent && Total(|sent[f].data|) > 0 && forall i :: 0 <= i < Total(|sent[f].data|) ==> (f, i) in st.seen
  }

  lemma KeysArrived(sent: Sent, st: State)
    requires Inv(sent, st)
    ensures forall f :: f > st.cache.minFid ==> (IsKey(st.cache, f) <==> KeyArrived(sent, st, f))
  {
    forall f | f > st.cache.minFid ensures IsKey(st.cache, f) <==> KeyArrived(sent, st, f) { InRing(sent, st, f); }
  }

  lemma TrimFloor(sent: Sent, st: State, late: bool)
    requires Inv(sent, st)
    ensures FetchesFrom(sent, st, late, Trim(st.cache, late).minFid)
  {
    var c, d := st.cache, EvictGop(st.cache);
    EvictGopOk(c);
    EvictGopStops(c);
    forall k ensures NextKey(c, k) <==> NextInBacklog(sent, st, k) { SameNextKey(sent, st, k); }
  }

  lemma SameNextKey(sent: Sent, st: State, k: nat)
    requires Inv(sent, st)
    ensures NextKey(st.cache, k) <==> NextInBacklog(sent, st, k)
  {
    KeysArrived(sent, st);
  }

  lemma ReadyIffArrived(sent: Sent, st: State)
    requires Inv(sent, st)
    ensures var f := st.cache.minFid + 1;
      f in st.cache.frames && Full(st.cache.frames[f]) <==> AllArrived(sent, st, f)
  {
    var f := st.cache.minFid + 1;
    if f in st.cache.frames {
      assert Mirrors(sent, st.seen, st.cache.frames[f]);
    }
    if f in sent && Total(|sent[f].data|) > 0 {
      FullMeansAllSeen(sent, st, f);
    }
  }

  lemma ServedFrame(sent: Sent, st: State, room: nat, due: bool)
    requires Inv(sent, st)
    ensures var z := Handed(st, Serve(st.cache, room, due), room); var f := st.cache.minFid + 1;
      if due && AllArrived(sent, st, f)
      then z.cache.minFid == f && z.out == st.out + [Output(f, room, Expected(sent[f], room))]
      else z == st
  {
    ReadyIffArrived(sent, st);
    if Ready(st.cache, due) {
      FullJoins(sent, st.seen, st.cache.frames[st.cache.minFid + 1], room);
    }
  }

  /**
   * In every run a fetch while playback runs first moves the floor to just below the next key frame, if the backlog is
   * long and there is one, and then hands out the frame above the floor exactly when it is due and all its segments
   * arrived; that frame is the new floor.
   */
  lemma FetchServes(sent: Sent, events: seq<Event>, room: nat, late: bool, due: bool) returns (floor: nat)
    requires Feasible(sent, START, events)
    ensures var st := Run(sent, START, events);
      var z := Step(sent, st, Fetch(room, true, late, due));
      && (st.cache.minFid < st.cache.maxFid ==> FetchesFrom(sent, st, late, floor))
      && (st.cache.minFid == st.cache.maxFid ==> floor == st.cache.minFid)
      && (if due && AllArrived(sent, st, floor + 1)
          then z.cache.minFid == floor + 1 && z.out == st.out + [Output(floor + 1, room, Expected(sent[floor + 1], room))]
          else z.cache.minFid == floor && z.out == st.out)
  {
    var st := Run(sent, START, events);
    Reachable(sent, events);
    RunNewest(sent, START, events);
    floor := st.cache.minFid;
    if floor < st.cache.maxFid {
      floor := Trim(st.cache, late).minFid;
      TrimFloor(sent, st, late);
      TrimServes(sent, st, room, late, due);
    } else if AllArrived(sent, st, floor + 1) {
      assert (floor + 1, 0) in st.seen;
    }
  }

  lemma TrimServes(sent: Sent, st: State, room: nat, late: bool, due: bool)
    requires Inv(sent, st) && st.cache.minFid < st.cache.maxFid
    ensures var z := Step(sent, st, Fetch(room, true, late, due)); var d := Trim(st.cache, late);
      if due && AllArrived(sent, st, d.minFid + 1)
      then z.cache.minFid == d.minFid + 1
           && z.out == st.out + [Output(d.minFid + 1, room, Expected(sent[d.minFid + 1], room))]
      else z.cache.minFid == d.minFid && z.out == st.out
  {
    var t := st.(cache := Trim(st.cache, late));
    EvictGopOk(st.cache);
    TrimKeeps(sent, st, t.cache);
    ServedFrame(sent, t, room, due);
    assert Step(sent, st, Fetch(room, true, late, due)) == Handed(t, Serve(t.cache, room, due), room);
  }

  // ---- an arrival ----

  lemma EvictFrameStops(c: Cache, fid: nat)
    requires CacheOk(c) && c.minFid < c.maxFid < fid && fid == c.minFid + CACHE_SIZE
    ensures var k := FirstKey(c, c.minFid + 1, c.maxFid); var d := EvictFrame(c, fid);
      && (k < c.maxFid ==> IsKey(c, k)) && (forall f :: c.minFid < f < k ==> !IsKey(c, f))
      && c.minFid <= d.minFid < k <= c.maxFid && forall f :: f in d.frames <==> f in c.frames && f >= k
  {
    var k := FirstKey(c, c.minFid + 1, c.maxFid);
    FirstKeyIs(c, c.minFid + 1, c.maxFid);
    CleanRangeOk(c, c.minFid + 1, k);
  }

  /** What stays when the ring is full: from the first key frame that arrived, or the newest frame without one. */
  ghost predicate StaysFrom(sent: Sent, st: State, k: nat) {
    if k == st.cache.maxFid then forall f :: st.cache.minFid < f < k ==> !KeyArrived(sent, st, f)
    else NextKeyFrame(sent, st, st.cache.minFid + 1, k)
  }

  /**
   * In every run, a segment of a frame above the floor. The first one of all sets the floor just below its frame. One
   * that finds the ring full drops what lies before the first key frame, or before the newest frame if there is none.
   * Any other drops nothing.
   */
  lemma ArrivalMovesFloor(sent: Sent, events: seq<Event>, f: nat, i: nat) returns (k: nat)
    requires Feasible(sent, START, events) && Enabled(sent, Run(sent, START, events), Arrive(f, i))
    requires f > Run(sent, START, events).cache.minFid
    ensures var st := Run(sent, START, events);
      var c, d := st.cache, Step(sent, st, Arrive(f, i)).cache;
      && d.maxFid == Larger(c.maxFid, f)
      && (c.maxFid == 0 ==> d.minFid == f - 1)
      && (c.maxFid > 0 && (f <= c.maxFid || f < c.minFid + CACHE_SIZE) ==>
            d.minFid == c.minFid && forall g :: g in d.frames <==> g in c.frames || g == f)
      && (c.maxFid > 0 && f > c.maxFid && f == c.minFid + CACHE_SIZE && c.minFid < c.maxFid ==>
            && StaysFrom(sent, st, k) && c.minFid <= d.minFid < k
            && forall g :: g in d.frames <==> (g in c.frames && g >= k) || g == f)
  {
    var st := Run(sent, START, events);
    var c, g := st.cache, SegmentOf(sent[f], i);
    Reachable(sent, events);
    assert CanPut(c, g) by { if f in c.frames { assert Mirrors(sent, st.seen, c.frames[f]); } }
    AdvanceOk(c, f);
    PutNewest(c, g);
    k := FirstKey(c, c.minFid + 1, c.maxFid);
    if c.minFid < c.maxFid < f && f == c.minFid + CACHE_SIZE {
      EvictFrameStops(c, f);
      forall n | n > c.minFid ensures IsKey(c, n) <==> KeyArrived(sent, st, n) { InRing(sent, st, n); }
    }
  }

  // ---- the floor of packet ids ----

  lemma {:induction false} NoneToClean(c: Cache, lo: nat, hi: nat)
    requires forall g :: lo <= g < hi ==> g !in c.frames
    ensures CleanRange(c, lo, hi) == c
    decreases hi - lo
  {
    if lo < hi { NoneToClean(c, lo + 1, hi); }
  }

  lemma {:induction false} CleanRangeSeq(c: Cache, lo: nat, hi: nat, f: nat)
    requires f in c.frames && lo <= f < hi && forall g :: f < g < hi ==> g !in c.frames
    ensures CleanRange(c, lo, hi).minSeq == LastId(c.frames[f].segments)
    decreases hi - lo
  {
    if f == lo {
      NoneToClean(Clean(c, lo), lo + 1, hi);
    } else {
      CleanRangeSeq(Clean(c, lo), lo + 1, hi, f);
    }
  }

  /** The frames of c up to some number are gone from d, and f was the last of them. */
  predicate LastRemoved(c: Cache, d: Cache, f: nat) {
    f in c.frames && f !in d.frames && forall g :: g in c.frames && g > f ==> g in d.frames
  }

  predicate NoneRemoved(c: Cache, d: Cache) {
    forall g :: g in c.frames ==> g in d.frames
  }

  /** The floor of packet ids is that of the last frame removed, and stays while none is. */
  predicate SeqOfLast(c: Cache, d: Cache, f: nat) {
    && (NoneRemoved(c, d) ==> d.minSeq == c.minSeq)
    && (LastRemoved(c, d, f) ==> d.minSeq == LastId(c.frames[f].segments))
  }

  lemma CleanedSeq(c: Cache, k: nat, f: nat)
    requires CacheOk(c) && k <= c.maxFid
    ensures SeqOfLast(c, CleanRange(c, c.minFid + 1, k), f)
  {
    var lo, d := c.minFid + 1, CleanRange(c, c.minFid + 1, k);
    if lo < k {
      CleanRangeOk(c, lo, k);
      if NoneRemoved(c, d) { NoneToClean(c, lo, k); }
      if LastRemoved(c, d, f) { CleanRangeSeq(c, lo, k, f); }
    }
  }

  lemma PutSeq(c: Cache, g: Segment, f: nat)
    requires CacheOk(c) && CanPut(c, g)
    ensures SeqOfLast(c, Put(c, g).0, f)
  {
    var d := Put(c, g).0;
    if g.index < g.total && c.minFid < g.fid && c.maxFid < g.fid {
      AdvanceOk(c, g.fid);
      if c.maxFid > 0 && g.fid >= c.minFid + CACHE_SIZE && c.minFid < c.maxFid {
        FirstKeyIs(c, c.minFid + 1, c.maxFid);
        CleanedSeq(c, FirstKey(c, c.minFid + 1, c.maxFid), f);
        assert EvictFrame(c, g.fid).frames.Keys == d.frames.Keys - {g.fid};
      }
    }
  }

  lemma ServeSeq(c: Cache, t: Cache, room: nat, due: bool, f: nat)
    requires CacheOk(c) && Trimmed(c, t) && SeqOfLast(c, t, f)
    ensures SeqOfLast(c, Serve(t, room, due).0, f)
  {
  }

  lemma GetSeq(c: Cache, room: nat, playing: bool, late: bool, due: bool, f: nat)
    requires CacheOk(c)
    ensures SeqOfLast(c, Get(c, room, playing, late, due).0, f)
  {
    var k := FirstKey(c, c.minFid + 2, c.maxFid);
    EvictGopOk(c);
    if k < c.maxFid { CleanedSeq(c, k, f); }
    ServeSeq(c, Trim(c, late), room, due, f);
  }

  /**
   * In every run, a step that removes frames from the ring leaves the floor of packet ids at the last packet of the
   * newest frame removed, as it was sent; a step that removes none leaves it alone.
   */
  lemma FloorOfIds(sent: Sent, events: seq<Event>, e: Event, f: nat)
    requires Feasible(sent, START, events) && Enabled(sent, Run(sent, START, events), e)
    ensures var st := Run(sent, START, events); var c, d := st.cache, Step(sent, st, e).cache;
      && (NoneRemoved(c, d) ==> d.minSeq == c.minSeq)
      && (LastRemoved(c, d, f) ==> f in sent && d.minSeq == sent[f].firstId + Total(|sent[f].data|) - 1)
  {
    var st := Run(sent, START, events);
    var c := st.cache;
    Reachable(sent, events);
    if e.Fetch? {
      GetSeq(c, e.room, e.playing, e.late, e.due, f);
    } else if CanPut(c, SegmentOf(sent[e.fid], e.index)) {
      PutSeq(c, SegmentOf(sent[e.fid], e.index), f);
    }
    if f in c.frames {
      assert Mirrors(sent, st.seen, c.frames[f]);
      LastIdIs(sent[f], c.frames[f].segments);
    }
  }
}
