// The receiver's reassembly ring (ReCapABR/sim_transport/sim_receiver.c).

/** The ring seen as a finite map from frame numbers to partly received frames. */
module Reassembly {
  import opened Wrappers
  import opened Segments

  const CACHE_SIZE: nat := 1024

  datatype Slot = Slot(fid: nat, ftype: nat, ts: nat, segCount: nat, segNumber: nat, segments: seq<Option<Segment>>)

  /** Slot contents after real_video_clean_frame; the frame number is left behind. */
  function Cleaned(s: Slot): Slot {
    Slot(s.fid, 0, 0, 0, 0, [])
  }

  function CountSome(s: seq<Option<Segment>>): nat {
    if s == [] then 0 else CountSome(s[..|s| - 1]) + if s[|s| - 1].Some? then 1 else 0
  }

  /** The packet id of the last segment of a frame, computed from its last present segment. */
  function LastId(s: seq<Option<Segment>>): int {
    if s == [] then 0
    else if s[|s| - 1].Some? then
      var g := s[|s| - 1].value;
      g.packetId - g.index + g.total - 1
    else LastId(s[..|s| - 1])
  }

  /** A frame in the ring: one entry per announced segment, and a count of those present. */
  predicate FrameOk(s: Slot) {
    && 0 < s.segNumber == |s.segments|
    && 0 < s.segCount == CountSome(s.segments)
    && forall i :: 0 <= i < |s.segments| && s.segments[i].Some? ==>
         var g := s.segments[i].value; g.index == i && g.total == s.segNumber && g.fid == s.fid
  }

  predicate Full(s: Slot) {
    s.segNumber == s.segCount
  }

  lemma {:induction false} CountAtMost(s: seq<Option<Segment>>)
    ensures CountSome(s) <= |s|
    ensures CountSome(s) == |s| <==> forall i :: 0 <= i < |s| ==> s[i].Some?
    ensures CountSome(s) == 0 <==> forall i :: 0 <= i < |s| ==> s[i].None?
  {
    if s != [] {
      var t := s[..|s| - 1];
      CountAtMost(t);
      assert forall i :: 0 <= i < |s| ==> s[i] == if i < |t| then t[i] else s[|s| - 1];
    }
  }

  lemma {:induction false} CountUpdate(s: seq<Option<Segment>>, i: nat, g: Segment)
    requires i < |s| && s[i].None?
    ensures CountSome(s[i := Some(g)]) == CountSome(s) + 1
    decreases |s|
  {
    var t := s[..|s| - 1];
    if i < |t| {
      CountUpdate(t, i, g);
      assert s[i := Some(g)][..|s| - 1] == t[i := Some(g)];
    } else {
      assert s[i := Some(g)][..|s| - 1] == t;
    }
  }

  /** A frame is full exactly when every announced segment is present. */
  lemma FullMeansAllPresent(s: Slot)
    requires FrameOk(s)
    ensures Full(s) <==> AllPresent(s.segments)
  {
    CountAtMost(s.segments);
  }

  datatype Cache = Cache(minSeq: int, minFid: nat, maxFid: nat, frames: map<nat, Slot>)

  const EMPTY := Cache(0, 0, 0, map[])

  predicate CacheOk(c: Cache) {
    && c.minFid <= c.maxFid <= c.minFid + CACHE_SIZE
    && forall f :: f in c.frames ==> c.minFid < f <= c.maxFid && c.frames[f].fid == f && FrameOk(c.frames[f])
  }

  function Clean(c: Cache, f: nat): Cache {
    if f in c.frames then Cache(LastId(c.frames[f].segments), f, c.maxFid, c.frames - {f}) else c
  }

  function CleanRange(c: Cache, lo: nat, hi: nat): Cache
    decreases hi - lo
  {
    if lo >= hi then c else CleanRange(Clean(c, lo), lo + 1, hi)
  }

  predicate IsKey(c: Cache, f: nat) {
    f in c.frames && c.frames[f].ftype == 1
  }

  function FirstKey(c: Cache, lo: nat, hi: nat): (k: nat)
    ensures lo <= hi ==> lo <= k <= hi
    ensures lo > hi ==> k == lo
    decreases hi - lo
  {
    if lo >= hi || IsKey(c, lo) then lo else FirstKey(c, lo + 1, hi)
  }

  /** Drops everything before the next key frame after the first one; nothing when there is none. */
  function EvictGop(c: Cache): Cache {
    var k := FirstKey(c, c.minFid + 2, c.maxFid);
    if k >= c.maxFid then c else CleanRange(c, c.minFid + 1, k).(minFid := k - 1)
  }

  /** Makes room for a frame number beyond the newest one. */
  function EvictFrame(c: Cache, fid: nat): Cache {
    if fid < c.minFid + CACHE_SIZE then c
    else CleanRange(c, c.minFid + 1, FirstKey(c, c.minFid + 1, c.maxFid))
  }

  function Advance(c: Cache, fid: nat): Cache {
    if fid <= c.maxFid then c
    else
      var d := if c.maxFid > 0 then EvictFrame(c, fid) else if c.minFid == 0 then c.(minFid := fid - 1) else c;
      d.(maxFid := fid)
  }

  function Store(s: Option<Slot>, g: Segment): (Slot, bool)
    requires g.index < g.total && (s.Some? ==> |s.value.segments| == g.total)
  {
    match s
    case None =>
      (Slot(g.fid, g.ftype, g.timestamp, 1, g.total, seq(g.total, _ => None)[g.index := Some(g)]), true)
    case Some(o) =>
      if o.segments[g.index].None? then
        (Slot(g.fid, g.ftype, g.timestamp, o.segCount + 1, o.segNumber, o.segments[g.index := Some(g)]), true)
      else
        (o.(fid := g.fid, ftype := g.ftype, ts := g.timestamp), false)
  }

  function At(c: Cache, f: nat): Option<Slot> {
    if f in c.frames then Some(c.frames[f]) else None
  }

  /** The caller's side of a put: one count per frame number, and no number beyond the ring. */
  predicate CanPut(c: Cache, g: Segment) {
    && (g.fid in c.frames ==> c.frames[g.fid].segNumber == g.total)
    && (c.maxFid > 0 ==> g.fid <= c.minFid + CACHE_SIZE)
  }

  /** real_video_cache_put: the cache afterwards and whether the segment was taken. */
  function Put(c: Cache, g: Segment): (r: (Cache, bool))
    requires CacheOk(c) && CanPut(c, g)
  {
    if g.index >= g.total || g.fid <= c.minFid then (c, false)
    else
      AdvanceOk(c, g.fid);
      var d := Advance(c, g.fid);
      var (s, ok) := Store(At(d, g.fid), g);
      (d.(frames := d.frames[g.fid := s]), ok)
  }

  predicate AllPresent(segments: seq<Option<Segment>>) {
    forall i :: 0 <= i < |segments| ==> segments[i].Some?
  }

  /** The bytes of a full frame if they fit, else none. */
  function Join(segments: seq<Option<Segment>>, room: nat): seq<byte>
    requires AllPresent(segments)
  {
    JoinFrom(segments, 0, [], room)
  }

  function JoinFrom(segments: seq<Option<Segment>>, i: nat, done: seq<byte>, room: nat): seq<byte>
    requires i <= |segments| && AllPresent(segments)
    decreases |segments| - i
  {
    if i == |segments| then done
    else
      var d := segments[i].value.data;
      if |done| + |d| <= room && |d| <= SEGMENT_SIZE then JoinFrom(segments, i + 1, done + d, room) else []
  }

  datatype Got = Nothing | Delivered(fid: nat, bytes: seq<byte>)

  function Trim(c: Cache, late: bool): Cache {
    if late then EvictGop(c) else c
  }

  /** Whether the frame just above the floor can be handed out. */
  predicate Ready(c: Cache, due: bool) {
    due && c.minFid + 1 in c.frames && Full(c.frames[c.minFid + 1])
  }

  /** Hands out the frame just above the floor if it is ready. */
  function Serve(c: Cache, room: nat, due: bool): (Cache, Got)
    requires CacheOk(c)
  {
    var f := c.minFid + 1;
    if !Ready(c, due) then (c, Nothing)
    else
      FullMeansAllPresent(c.frames[f]);
      (Clean(c, f), Delivered(f, Join(c.frames[f].segments, room)))
  }

  /** real_video_cache_get with its clock readings as inputs: whether playback runs, whether the backlog is
      too long, and whether the next frame is due. */
  function Get(c: Cache, room: nat, playing: bool, late: bool, due: bool): (Cache, Got)
    requires CacheOk(c)
  {
    if !playing || c.minFid == c.maxFid then (c, Nothing)
    else
      EvictGopOk(c);
      Serve(Trim(c, late), room, due)
  }

  // ---- what the operations keep ----

  /** d is c without the frames up to its new floor. */
  ghost predicate Trimmed(c: Cache, d: Cache) {
    && CacheOk(d) && d.maxFid == c.maxFid
    && c.minFid <= d.minFid && (c.minFid < d.minFid ==> d.minFid < c.maxFid)
    && (forall f :: f in d.frames <==> f in c.frames && f > d.minFid)
    && (forall f :: f in d.frames ==> d.frames[f] == c.frames[f])
    && (d.minSeq != c.minSeq ==>
          exists f :: f in c.frames && f <= d.minFid && d.minSeq == LastId(c.frames[f].segments))
  }

  lemma {:induction false} CleanRangeOk(c: Cache, lo: nat, hi: nat)
    requires CacheOk(c) && c.minFid < lo && hi <= c.maxFid
    requires forall f :: f in c.frames ==> f >= lo
    ensures Trimmed(c, CleanRange(c, lo, hi))
    ensures CleanRange(c, lo, hi).minFid < if lo < hi then hi else lo
    ensures forall f :: f in CleanRange(c, lo, hi).frames ==> f >= hi
    decreases hi - lo
  {
    if lo < hi {
      var b := Clean(c, lo);
      CleanRangeOk(b, lo + 1, hi);
    }
  }

  lemma {:induction false} FirstKeyIs(c: Cache, lo: nat, hi: nat)
    requires lo <= hi
    ensures var k := FirstKey(c, lo, hi); (k < hi ==> IsKey(c, k)) && forall f :: lo <= f < k ==> !IsKey(c, f)
    decreases hi - lo
  {
    if lo < hi && !IsKey(c, lo) { FirstKeyIs(c, lo + 1, hi); }
  }

  /** k is the next key frame after the one that follows the floor, and not the newest frame. */
  predicate NextKey(c: Cache, k: nat) {
    c.minFid + 2 <= k < c.maxFid && IsKey(c, k) && forall f :: c.minFid + 2 <= f < k ==> !IsKey(c, f)
  }

  lemma EvictGopOk(c: Cache)
    requires CacheOk(c)
    ensures Trimmed(c, EvictGop(c))
  {
    var k := FirstKey(c, c.minFid + 2, c.maxFid);
    if k < c.maxFid { CleanRangeOk(c, c.minFid + 1, k); }
  }

  /** The floor rises to just below the next key frame, and stays, with all else, when there is none. */
  lemma EvictGopStops(c: Cache)
    requires CacheOk(c)
    ensures var d := EvictGop(c);
      if d.minFid > c.minFid then NextKey(c, d.minFid + 1) && IsKey(d, d.minFid + 1)
      else d == c && forall k :: !NextKey(c, k)
  {
    var lo := c.minFid + 2;
    EvictGopOk(c);
    if lo <= c.maxFid { FirstKeyIs(c, lo, c.maxFid); }
  }

  lemma AdvanceOk(c: Cache, fid: nat)
    requires CacheOk(c) && c.minFid < fid && (c.maxFid > 0 ==> fid <= c.minFid + CACHE_SIZE)
    ensures var d := Advance(c, fid);
      && CacheOk(d) && d.minFid < fid <= d.maxFid && d.maxFid == (if fid > c.maxFid then fid else c.maxFid)
      && (c.maxFid > 0 ==> Trimmed(c, d.(maxFid := c.maxFid)))
      && (c.maxFid == 0 ==> d == Cache(c.minSeq, fid - 1, fid, map[]))
  {
    if fid > c.maxFid > c.minFid && fid >= c.minFid + CACHE_SIZE {
      CleanRangeOk(c, c.minFid + 1, FirstKey(c, c.minFid + 1, c.maxFid));
    }
  }

  /** The segment is announced within its frame, above the floor, and not there yet. */
  predicate IsNew(c: Cache, g: Segment)
    requires CacheOk(c) && CanPut(c, g)
  {
    g.index < g.total && g.fid > c.minFid
    && (g.fid in c.frames ==> c.frames[g.fid].segments[g.index].None?)
  }

  /** A put keeps the ring well formed, never lowers the floor, and takes exactly the new segments. */
  lemma PutOk(c: Cache, g: Segment)
    requires CacheOk(c) && CanPut(c, g)
    ensures var (d, ok) := Put(c, g);
      && CacheOk(d) && c.minFid <= d.minFid
      && (ok <==> IsNew(c, g))
      && (ok ==> g.fid in d.frames && Some(g) in d.frames[g.fid].segments)
  {
    if g.index < g.total && g.fid > c.minFid {
      AdvanceOk(c, g.fid);
      StoreOk(At(Advance(c, g.fid), g.fid), g);
      var stored := Put(c, g).0.frames[g.fid].segments;
      assert Put(c, g).1 ==> stored[g.index] == Some(g);
    }
  }

  lemma StoreOk(s: Option<Slot>, g: Segment)
    requires g.index < g.total && (s.Some? ==> FrameOk(s.value) && s.value.segNumber == g.total && s.value.fid == g.fid)
    ensures FrameOk(Store(s, g).0) && Store(s, g).0.fid == g.fid
  {
    match s
    case None =>
      var blank: seq<Option<Segment>> := seq(g.total, _ => None);
      CountAtMost(blank);
      CountUpdate(blank, g.index, g);
    case Some(o) =>
      if o.segments[g.index].None? { CountUpdate(o.segments, g.index, g); }
  }

  /**
   * A get keeps the ring well formed and never lowers the floor. It hands out a frame exactly when playback runs
   * and the frame just above the floor is due and full; that frame becomes the floor.
   */
  lemma GetOk(c: Cache, room: nat, playing: bool, late: bool, due: bool)
    requires CacheOk(c)
    ensures var (d, got) := Get(c, room, playing, late, due); var f := Trim(c, late).minFid + 1;
      && CacheOk(d) && c.minFid <= d.minFid
      && (got.Delivered? <==> playing && due && f in c.frames && Full(c.frames[f]))
      && (got.Delivered? ==> got.fid == f == d.minFid && forall k :: k in d.frames <==> k in c.frames && k > f)
  {
    EvictGopOk(c);
  }
}

/** Runs of the reassembly ring fed by the segments of sent frames, in any order, with repeats and losses. */
module Playback {
  import opened Wrappers
  import opened Segments
  import opened Reassembly
  import opened Fragmenter

  datatype Event =
    | Arrive(fid: nat, index: nat)
    | Fetch(room: nat, playing: bool, late: bool, due: bool)

  datatype Output = Output(fid: nat, room: nat, bytes: seq<byte>)

  /** seen records every segment that arrived, taken or not. */
  datatype State = State(cache: Cache, seen: set<(nat, nat)>, out: seq<Output>)

  type Sent = m: map<nat, Frame> | forall f :: f in m ==> m[f].fid == f witness map[]

  const START := State(EMPTY, {}, [])

  /** A sent segment arrives whose frame number is at most the ring size above the floor; fetches are free. */
  predicate Enabled(sent: Sent, st: State, e: Event) {
    e.Arrive? ==>
      && e.fid in sent && e.index < Total(|sent[e.fid].data|)
      && (st.cache.maxFid > 0 ==> e.fid <= st.cache.minFid + CACHE_SIZE)
  }

  /** One event; an event the cache does not admit changes nothing, which StepKeeps shows never to happen. */
  function Step(sent: Sent, st: State, e: Event): State
    requires Enabled(sent, st, e)
  {
    if !CacheOk(st.cache) then st else
    match e
    case Arrive(f, i) =>
      var g := SegmentOf(sent[f], i);
      if !CanPut(st.cache, g) then st else
      State(Put(st.cache, g).0, st.seen + {(f, i)}, st.out)
    case Fetch(room, playing, late, due) =>
      Handed(st, Get(st.cache, room, playing, late, due), room)
  }

  function Handed(st: State, r: (Cache, Got), room: nat): State {
    match r.1
    case Nothing => st.(cache := r.0)
    case Delivered(f, bytes) => State(r.0, st.seen, st.out + [Output(f, room, bytes)])
  }

  /** The slot of a frame has its type and time, and mirrors exactly the segments seen. */
  predicate Mirrors(sent: Sent, seen: set<(nat, nat)>, s: Slot) {
    && s.fid in sent
    && s.ftype == sent[s.fid].ftype && s.ts == sent[s.fid].timestamp
    && s.segNumber == |s.segments| == Total(|sent[s.fid].data|)
    && forall i :: 0 <= i < |s.segments| ==>
         s.segments[i] == if (s.fid, i) in seen then Some(SegmentOf(sent[s.fid], i)) else None
  }

  /** What a fetch hands out for a frame: all bytes its segments carry, or nothing when they exceed the room. */
  function Expected(f: Frame, room: nat): seq<byte> {
    var all := Carried(f, Total(|f.data|));
    if |all| <= room then all else []
  }

  predicate CacheMirrors(sent: Sent, seen: set<(nat, nat)>, c: Cache) {
    && (forall f :: f in c.frames ==> Mirrors(sent, seen, c.frames[f]))
    && (forall p :: p in seen && p.0 > c.minFid ==> p.0 in c.frames)
  }

  predicate OutputOk(sent: Sent, o: Output) {
    o.fid in sent && o.bytes == Expected(sent[o.fid], o.room)
  }

  predicate OutOk(sent: Sent, floor: nat, out: seq<Output>) {
    && (forall i :: 0 <= i < |out| ==> out[i].fid <= floor && OutputOk(sent, out[i]))
    && (forall i, j :: 0 <= i < j < |out| ==> out[i].fid < out[j].fid)
  }

  predicate Inv(sent: Sent, st: State) {
    CacheOk(st.cache) && CacheMirrors(sent, st.seen, st.cache) && OutOk(sent, st.cache.minFid, st.out)
  }

  /** The segments are all those of a frame, in order. */
  predicate IsWhole(f: Frame, segments: seq<Option<Segment>>) {
    |segments| == Total(|f.data|) && forall j :: 0 <= j < |segments| ==> segments[j] == Some(SegmentOf(f, j))
  }

  lemma JoinStep(f: Frame, segments: seq<Option<Segment>>, i: nat, room: nat)
    requires IsWhole(f, segments) && i < |segments|
    ensures JoinFrom(segments, i, Carried(f, i), room)
            == if |Carried(f, i + 1)| <= room then JoinFrom(segments, i + 1, Carried(f, i + 1), room) else []
  {
    assert segments[i].value.data == SegmentOf(f, i).data;
  }

  lemma {:induction false} JoinFromIs(f: Frame, segments: seq<Option<Segment>>, i: nat, room: nat)
    requires IsWhole(f, segments) && i <= |segments| && |Carried(f, i)| <= room
    ensures JoinFrom(segments, i, Carried(f, i), room) == Expected(f, room)
    decreases |segments| - i
  {
    if i < |segments| {
      JoinStep(f, segments, i, room);
      if |Carried(f, i + 1)| <= room {
        JoinFromIs(f, segments, i + 1, room);
      } else {
        CarriedGrows(f, i + 1, |segments|);
      }
    }
  }

  lemma {:induction false} CarriedGrows(f: Frame, i: nat, j: nat)
    requires i <= j <= Total(|f.data|)
    ensures |Carried(f, i)| <= |Carried(f, j)|
    decreases j - i
  {
    if i < j { CarriedGrows(f, i, j - 1); }
  }

  lemma JoinIs(f: Frame, s: Slot, room: nat)
    requires FrameOk(s) && s.segNumber == Total(|f.data|)
    requires IsWhole(f, s.segments)
    ensures Join(s.segments, room) == Expected(f, room)
  {
    JoinFromIs(f, s.segments, 0, room);
  }

  lemma StoreMirrors(sent: Sent, seen: set<(nat, nat)>, o: Option<Slot>, f: nat, i: nat)
    requires f in sent && i < Total(|sent[f].data|)
    requires o.Some? ==> o.value.fid == f && Mirrors(sent, seen, o.value)
    requires o.None? ==> forall p :: p in seen ==> p.0 != f
    ensures Mirrors(sent, seen + {(f, i)}, Store(o, SegmentOf(sent[f], i)).0)
    ensures Store(o, SegmentOf(sent[f], i)).0.fid == f
  {
  }

  lemma MirrorsOther(sent: Sent, seen: set<(nat, nat)>, s: Slot, p: (nat, nat))
    requires Mirrors(sent, seen, s) && s.fid != p.0
    ensures Mirrors(sent, seen + {p}, s)
  {
  }

  lemma ArriveKeeps(sent: Sent, st: State, f: nat, i: nat)
    requires Enabled(sent, st, Arrive(f, i)) && Inv(sent, st)
    ensures Inv(sent, Step(sent, st, Arrive(f, i)))
    ensures st.cache.minFid <= Step(sent, st, Arrive(f, i)).cache.minFid
  {
    var g := SegmentOf(sent[f], i);
    var c := st.cache;
    PutOk(c, g);
    var after := Put(c, g).0;
    var seen := st.seen + {(f, i)};
    if f > c.minFid {
      AdvanceOk(c, f);
      StoreMirrors(sent, st.seen, At(Advance(c, f), f), f, i);
    }
    forall k | k in after.frames ensures Mirrors(sent, seen, after.frames[k]) {
      if k != f { MirrorsOther(sent, st.seen, c.frames[k], (f, i)); }
    }
  }

  lemma TrimKeeps(sent: Sent, st: State, d: Cache)
    requires Inv(sent, st) && Trimmed(st.cache, d)
    ensures Inv(sent, st.(cache := d))
  {
  }

  lemma FullJoins(sent: Sent, seen: set<(nat, nat)>, s: Slot, room: nat)
    requires FrameOk(s) && Full(s) && Mirrors(sent, seen, s)
    ensures AllPresent(s.segments) && Join(s.segments, room) == Expected(sent[s.fid], room)
  {
    FullMeansAllPresent(s);
    JoinIs(sent[s.fid], s, room);
  }

  lemma CleanMirrors(sent: Sent, seen: set<(nat, nat)>, c: Cache)
    requires CacheOk(c) && CacheMirrors(sent, seen, c) && c.minFid + 1 in c.frames
    ensures CacheMirrors(sent, seen, Clean(c, c.minFid + 1))
  {
  }

  lemma DeliverKeeps(sent: Sent, floor: nat, out: seq<Output>, o: Output)
    requires OutOk(sent, floor, out) && OutputOk(sent, o) && o.fid > floor
    ensures OutOk(sent, o.fid, out + [o])
  {
  }

  /** Any present segments of a frame give the id of its last packet. */
  lemma {:induction false} LastIdIs(f: Frame, s: seq<Option<Segment>>)
    requires |s| <= Total(|f.data|) && CountSome(s) > 0
    requires forall i :: 0 <= i < |s| && s[i].Some? ==> s[i] == Some(SegmentOf(f, i))
    ensures LastId(s) == f.firstId + Total(|f.data|) - 1
    decreases |s|
  {
    if s[|s| - 1].None? { LastIdIs(f, s[..|s| - 1]); }
  }

  lemma DeliveredKeeps(sent: Sent, st: State, room: nat)
    requires Inv(sent, st) && st.cache.minFid + 1 in st.cache.frames && Full(st.cache.frames[st.cache.minFid + 1])
    ensures var f := st.cache.minFid + 1;
      AllPresent(st.cache.frames[f].segments) &&
      Inv(sent, State(Clean(st.cache, f), st.seen, st.out + [Output(f, room, Join(st.cache.frames[f].segments, room))]))
  {
    var f := st.cache.minFid + 1;
    var s := st.cache.frames[f];
    assert Mirrors(sent, st.seen, s);
    FullJoins(sent, st.seen, s, room);
    DeliverKeeps(sent, st.cache.minFid, st.out, Output(f, room, Join(s.segments, room)));
    CleanMirrors(sent, st.seen, st.cache);
  }

  lemma ServeKeeps(sent: Sent, st: State, room: nat, due: bool)
    requires Inv(sent, st)
    ensures Inv(sent, Handed(st, Serve(st.cache, room, due), room))
    ensures st.cache.minFid <= Serve(st.cache, room, due).0.minFid
  {
    if Ready(st.cache, due) { DeliveredKeeps(sent, st, room); }
  }

  lemma FetchKeeps(sent: Sent, st: State, room: nat, playing: bool, late: bool, due: bool)
    requires Inv(sent, st)
    ensures Inv(sent, Step(sent, st, Fetch(room, playing, late, due)))
    ensures st.cache.minFid <= Step(sent, st, Fetch(room, playing, late, due)).cache.minFid
  {
    if playing && st.cache.minFid != st.cache.maxFid {
      var t := st.(cache := Trim(st.cache, late));
      EvictGopOk(st.cache);
      TrimKeeps(sent, st, t.cache);
      ServeKeeps(sent, t, room, due);
      assert Step(sent, st, Fetch(room, playing, late, due)) == Handed(t, Serve(t.cache, room, due), room);
    }
  }

  lemma StepKeeps(sent: Sent, st: State, e: Event)
    requires Enabled(sent, st, e) && Inv(sent, st)
    ensures Inv(sent, Step(sent, st, e))
    ensures st.cache.minFid <= Step(sent, st, e).cache.minFid
  {
    match e
    case Arrive(f, i) => ArriveKeeps(sent, st, f, i);
    case Fetch(room, playing, late, due) => FetchKeeps(sent, st, room, playing, late, due);
  }

  /** Every event of the run is enabled when its turn comes. */
  predicate Feasible(sent: Sent, st: State, events: seq<Event>)
    decreases |events|
  {
    events == [] || (Enabled(sent, st, events[0]) && Feasible(sent, Step(sent, st, events[0]), events[1..]))
  }

  function Run(sent: Sent, st: State, events: seq<Event>): State
    requires Feasible(sent, st, events)
    decreases |events|
  {
    if events == [] then st else Run(sent, Step(sent, st, events[0]), events[1..])
  }

  lemma {:induction false} RunKeeps(sent: Sent, st: State, events: seq<Event>)
    requires Inv(sent, st) && Feasible(sent, st, events)
    ensures Inv(sent, Run(sent, st, events))
    ensures st.cache.minFid <= Run(sent, st, events).cache.minFid
    decreases |events|
  {
    if events != [] {
      StepKeeps(sent, st, events[0]);
      RunKeeps(sent, Step(sent, st, events[0]), events[1..]);
    }
  }

  /** Along every run: each delivered frame has the bytes that were sent, and frame numbers strictly increase. */
  lemma RunDelivers(sent: Sent, events: seq<Event>)
    requires Feasible(sent, START, events)
    ensures var out := Run(sent, START, events).out;
      && (forall i, j :: 0 <= i < j < |out| ==> out[i].fid < out[j].fid)
      && (forall o :: o in out ==> o.fid in sent)
      && (forall o :: o in out && |sent[o.fid].data| <= (U16 - 1) * SEGMENT_SIZE ==>
            o.bytes == if |sent[o.fid].data| <= o.room then sent[o.fid].data else [])
  {
    RunKeeps(sent, START, events);
    forall o | o in Run(sent, START, events).out ensures OutputOk(sent, o) { }
    forall o | o in Run(sent, START, events).out { SegmentsCarryFrame(sent[o.fid]); }
  }

  /** Along every run: a frame above the floor is full exactly when each of its segments has arrived since. */
  lemma FullMeansAllArrived(sent: Sent, events: seq<Event>, f: nat)
    requires Feasible(sent, START, events)
    requires f in sent && f > Run(sent, START, events).cache.minFid && Total(|sent[f].data|) > 0
    ensures var st := Run(sent, START, events);
      f in st.cache.frames && Full(st.cache.frames[f]) <==>
      forall i :: 0 <= i < Total(|sent[f].data|) ==> (f, i) in st.seen
  {
    RunKeeps(sent, START, events);
    FullMeansAllSeen(sent, Run(sent, START, events), f);
  }

  /** A frame above the floor is full exactly when every one of its segments has arrived since it was above it. */
  lemma FullMeansAllSeen(sent: Sent, st: State, f: nat)
    requires Inv(sent, st) && f in sent && f > st.cache.minFid && Total(|sent[f].data|) > 0
    ensures f in st.cache.frames && Full(st.cache.frames[f]) <==>
            forall i :: 0 <= i < Total(|sent[f].data|) ==> (f, i) in st.seen
  {
    if f in st.cache.frames {
      FullMeansAllPresent(st.cache.frames[f]);
      assert Mirrors(sent, st.seen, st.cache.frames[f]);
    } else {
      assert (f, 0) !in st.seen;
    }
  }
}

/** The ring itself: a fixed array of slots, indexed by frame number modulo its size. */
module FrameRings {
  import opened Wrappers
  import opened Segments
  import opened Reassembly

  /** The frames held by the slots, keyed by frame number. */
  function Live(slots: seq<Slot>, lo: nat, hi: nat): map<nat, Slot>
    requires |slots| == CACHE_SIZE
  {
    map f: nat | lo < f <= hi && Holds(slots, f) :: slots[f % CACHE_SIZE]
  }

  predicate Holds(slots: seq<Slot>, f: nat)
    requires |slots| == CACHE_SIZE
  {
    slots[f % CACHE_SIZE].segNumber > 0 && slots[f % CACHE_SIZE].fid == f
  }

  /** An empty slot keeps only the number of a frame at or below the floor. */
  predicate SlotOk(s: Slot, k: nat, lo: nat, hi: nat) {
    if s.segNumber == 0 then s.ftype == 0 && s.segCount == 0 && s.fid <= lo
    else lo < s.fid <= hi && s.fid % CACHE_SIZE == k && FrameOk(s)
  }

  lemma SameResidue(a: nat, b: nat)
    requires a % CACHE_SIZE == b % CACHE_SIZE && a < b + CACHE_SIZE && b < a + CACHE_SIZE
    ensures a == b
  {
  }

  /** Inside the window a slot can only hold the frame that is asked for. */
  lemma SlotIsOwn(slots: seq<Slot>, lo: nat, hi: nat, f: nat)
    requires |slots| == CACHE_SIZE && SlotOk(slots[f % CACHE_SIZE], f % CACHE_SIZE, lo, hi)
    requires hi <= lo + CACHE_SIZE && lo < f <= lo + CACHE_SIZE && slots[f % CACHE_SIZE].segNumber > 0
    ensures slots[f % CACHE_SIZE].fid == f
  {
    SameResidue(slots[f % CACHE_SIZE].fid, f);
  }

  class FrameRing {
    const frames: array<Slot>
    var minSeq: int
    var minFid: nat
    var maxFid: nat

    ghost predicate Valid()
      reads this, frames
      ensures Valid() ==> frames.Length == CACHE_SIZE && CacheOk(Abs())
    {
      && frames.Length == CACHE_SIZE
      && minFid <= maxFid <= minFid + CACHE_SIZE
      && forall k :: 0 <= k < CACHE_SIZE ==> SlotOk(frames[k], k, minFid, maxFid)
    }

    ghost function Abs(): Cache
      requires frames.Length == CACHE_SIZE
      reads this, frames
    {
      Cache(minSeq, minFid, maxFid, Live(frames[..], minFid, maxFid))
    }

    constructor ()
      ensures Valid() && fresh(frames) && Abs() == EMPTY
    {
      frames := new Slot[CACHE_SIZE](_ => Slot(0, 0, 0, 0, 0, []));
      minSeq, minFid, maxFid := 0, 0, 0;
    }

    /** real_video_clean_frame. */
    method CleanFrame(k: nat)
      requires k < frames.Length && (frames[k].segNumber > 0 ==> FrameOk(frames[k]))
      modifies this`minSeq, this`minFid, frames
      ensures old(frames[k]).segNumber == 0 ==> unchanged(this) && frames[..] == old(frames[..])
      ensures old(frames[k]).segNumber > 0 ==>
        && frames[..] == old(frames[..])[k := Cleaned(old(frames[k]))]
        && minFid == old(frames[k]).fid && minSeq == LastId(old(frames[k]).segments)
    {
      if frames[k].segNumber == 0 {
        return;
      }
      var s := frames[k].segments;
      for i := 0 to |s|
        modifies this`minSeq
        invariant CountSome(s[..i]) > 0 ==> minSeq == LastId(s[..i])
      {
        assert s[..i + 1][..i] == s[..i];
        if s[i].Some? {
          minSeq := s[i].value.packetId - s[i].value.index + s[i].value.total - 1;
        } else {
          assert CountSome(s[..i + 1]) == CountSome(s[..i]);
        }
      }
      assert s[..|s|] == s;
      minFid := frames[k].fid;
      frames[k] := Cleaned(frames[k]);
    }

    /** One step of an eviction loop: frame number f, with nothing older in the ring. */
    method CleanNumber(f: nat)
      requires Valid() && minFid < f <= maxFid
      requires forall g :: g in Abs().frames ==> g >= f
      modifies this`minSeq, this`minFid, frames
      ensures Valid() && minFid <= f && Abs() == Clean(old(Abs()), f)
      ensures forall g :: g in Abs().frames ==> g > f
    {
      ghost var slots := frames[..];
      if slots[f % CACHE_SIZE].segNumber > 0 {
        SlotIsOwn(slots, minFid, maxFid, f);
        LiveClean(slots, minFid, maxFid, f);
      }
      assert f in Abs().frames <==> slots[f % CACHE_SIZE].segNumber > 0;
      CleanFrame(f % CACHE_SIZE);
    }

    method CleanNumbers(lo: nat, hi: nat)
      requires Valid() && minFid < lo <= hi <= maxFid
      requires forall g :: g in Abs().frames ==> g >= lo
      modifies this`minSeq, this`minFid, frames
      ensures Valid() && minFid < hi && Abs() == CleanRange(old(Abs()), lo, hi)
      ensures forall g :: g in Abs().frames ==> g >= hi
    {
      var i := lo;
      while i < hi
        invariant Valid() && minFid < i && lo <= i <= hi && maxFid == old(maxFid)
        invariant forall g :: g in Abs().frames ==> g >= i
        invariant CleanRange(Abs(), i, hi) == CleanRange(old(Abs()), lo, hi)
      {
        CleanNumber(i);
        i := i + 1;
      }
    }

    /** The scan for a key frame used by both evictions. */
    method FindKey(lo: nat, hi: nat) returns (k: nat)
      requires Valid() && minFid < lo && hi <= maxFid
      ensures k == FirstKey(Abs(), lo, hi)
    {
      k := lo;
      while k < hi
        invariant lo <= k && FirstKey(Abs(), k, hi) == FirstKey(Abs(), lo, hi)
        decreases hi - k
      {
        ghost var slots := frames[..];
        if slots[k % CACHE_SIZE].segNumber > 0 { SlotIsOwn(slots, minFid, maxFid, k); }
        if frames[k % CACHE_SIZE].ftype == 1 {
          return;
        }
        k := k + 1;
      }
    }

    /** evict_gop_frame. */
    method DropGop()
      requires Valid()
      modifies this`minSeq, this`minFid, frames
      ensures Valid() && Abs() == EvictGop(old(Abs()))
    {
      var k := FindKey(minFid + 2, maxFid);
      if k < maxFid {
        CleanNumbers(minFid + 1, k);
        SetFloor(k - 1);
      }
    }

    method SetFloor(floor: nat)
      requires Valid() && minFid <= floor <= maxFid && forall g :: g in Abs().frames ==> g > floor
      modifies this`minFid
      ensures Valid() && Abs() == old(Abs()).(minFid := floor)
    {
      RaiseFloor(frames[..], minFid, maxFid, floor);
      minFid := floor;
    }

    /** real_video_evict_frame. */
    method MakeRoom(fid: nat)
      requires Valid() && maxFid < fid <= minFid + CACHE_SIZE
      modifies this`minSeq, this`minFid, frames
      ensures Valid() && Abs() == EvictFrame(old(Abs()), fid)
    {
      for pos := maxFid + 1 to fid + 1
        invariant Valid() && unchanged(this) && frames[..] == old(frames[..])
      {
        ghost var slots := frames[..];
        if slots[pos % CACHE_SIZE].segNumber > 0 { SlotIsOwn(slots, minFid, maxFid, pos); }
        CleanFrame(pos % CACHE_SIZE);
      }
      if fid < minFid + CACHE_SIZE {
        return;
      }
      var k := FindKey(minFid + 1, maxFid);
      if minFid < maxFid {
        CleanNumbers(minFid + 1, k);
      }
    }

    /** real_video_cache_put. */
    method PutSegment(g: Segment) returns (ok: bool)
      requires Valid() && CanPut(Abs(), g)
      modifies this, frames
      ensures Valid() && (Abs(), ok) == Put(old(Abs()), g)
    {
      if g.index >= g.total {
        return false;
      } else if g.fid <= minFid {
        return false;
      }
      AdvanceOk(Abs(), g.fid);
      Admit(g.fid);
      ok := Keep(g);
    }

    /** Moves the window of the ring up to a frame number. */
    method Admit(fid: nat)
      requires Valid() && minFid < fid && (maxFid > 0 ==> fid <= minFid + CACHE_SIZE)
      modifies this, frames
      ensures Valid() && Abs() == Advance(old(Abs()), fid)
    {
      AdvanceOk(Abs(), fid);
      if fid > maxFid {
        if maxFid > 0 {
          MakeRoom(fid);
          SetCeiling(fid);
        } else if minFid == 0 && maxFid == 0 {
          assert forall f :: f !in Abs().frames;
          minFid := fid - 1;
          maxFid := fid;
        }
      }
    }

    method SetCeiling(fid: nat)
      requires Valid() && maxFid < fid <= minFid + CACHE_SIZE
      modifies this`maxFid
      ensures Valid() && Abs() == old(Abs()).(maxFid := fid)
    {
      forall f | maxFid < f <= fid ensures !Holds(frames[..], f) {
        assert SlotOk(frames[f % CACHE_SIZE], f % CACHE_SIZE, minFid, maxFid);
      }
      maxFid := fid;
    }

    /** The tail of a put: the segment goes into its frame's slot. */
    method Keep(g: Segment) returns (ok: bool)
      requires Valid() && minFid < g.fid <= maxFid && g.index < g.total
      requires g.fid in Abs().frames ==> Abs().frames[g.fid].segNumber == g.total
      modifies frames
      ensures Valid() && minFid == old(minFid) && maxFid == old(maxFid)
      ensures var (s, taken) := Store(At(old(Abs()), g.fid), g);
        ok == taken && Abs() == old(Abs()).(frames := old(Abs()).frames[g.fid := s])
    {
      ghost var slots := frames[..];
      var k := g.fid % CACHE_SIZE;
      var s := frames[k];
      if s.segNumber > 0 { SlotIsOwn(slots, minFid, maxFid, g.fid); }
      StoreOk(At(Abs(), g.fid), g);
      s := s.(fid := g.fid, ftype := g.ftype, ts := g.timestamp);
      ok := false;
      if s.segNumber == 0 {
        var blank: seq<Option<Segment>> := seq(g.total, _ => None);
        s := s.(segCount := 1, segNumber := g.total, segments := blank[g.index := Some(g)]);
        ok := true;
      } else if s.segments[g.index].None? {
        s := s.(segments := s.segments[g.index := Some(g)], segCount := s.segCount + 1);
        ok := true;
      }
      LiveStore(slots, minFid, maxFid, g.fid, s);
      frames[k] := s;
    }

    /** real_video_cache_get. */
    method Take(room: nat, playing: bool, late: bool, due: bool) returns (delivered: bool, data: seq<byte>)
      requires Valid()
      modifies this`minSeq, this`minFid, frames
      ensures Valid()
      ensures var (c, got) := Get(old(Abs()), room, playing, late, due);
        Abs() == c && delivered == got.Delivered? && data == (if got.Delivered? then got.bytes else [])
    {
      if !playing || minFid == maxFid {
        return false, [];
      }
      EvictGopOk(Abs());
      if late {
        DropGop();
      }
      delivered, data := ServeFirst(room, due);
    }

    method ServeFirst(room: nat, due: bool) returns (delivered: bool, data: seq<byte>)
      requires Valid() && minFid < maxFid
      modifies this`minSeq, this`minFid, frames
      ensures Valid()
      ensures var (c, got) := Serve(old(Abs()), room, due);
        Abs() == c && delivered == got.Delivered? && data == (if got.Delivered? then got.bytes else [])
    {
      delivered, data := false, [];
      var f := minFid + 1;
      var s := frames[f % CACHE_SIZE];
      if s.segNumber > 0 { SlotIsOwn(frames[..], minFid, maxFid, f); }
      assert f in Abs().frames <==> s.segNumber > 0;
      if (minFid + 1 == s.fid || s.ftype == 1) && s.segNumber == s.segCount && due {
        FullMeansAllPresent(s);
        data := Gather(s.segments, room);
        CleanNumber(f);
        delivered := true;
      }
    }

    /** The copy loop of a get, which gives up on the whole frame when one segment does not fit. */
    method Gather(segments: seq<Option<Segment>>, room: nat) returns (data: seq<byte>)
      requires AllPresent(segments)
      ensures data == Join(segments, room)
    {
      data := [];
      for i := 0 to |segments|
        invariant JoinFrom(segments, i, data, room) == Join(segments, room)
      {
        var d := segments[i].value.data;
        if |data| + |d| <= room && |d| <= SEGMENT_SIZE {
          data := data + d;
        } else {
          return [];
        }
      }
    }
  }

  lemma LiveClean(slots: seq<Slot>, lo: nat, hi: nat, f: nat)
    requires |slots| == CACHE_SIZE && forall k :: 0 <= k < CACHE_SIZE ==> SlotOk(slots[k], k, lo, hi)
    requires lo < f <= hi <= lo + CACHE_SIZE && Holds(slots, f)
    requires forall g :: g in Live(slots, lo, hi) ==> g >= f
    ensures var after := slots[f % CACHE_SIZE := Cleaned(slots[f % CACHE_SIZE])];
      && Live(after, f, hi) == Live(slots, lo, hi) - {f}
      && forall k :: 0 <= k < CACHE_SIZE ==> SlotOk(after[k], k, f, hi)
  {
    var after := slots[f % CACHE_SIZE := Cleaned(slots[f % CACHE_SIZE])];
    forall k | 0 <= k < CACHE_SIZE ensures SlotOk(after[k], k, f, hi) {
      if k != f % CACHE_SIZE && slots[k].segNumber > 0 {
        assert Holds(slots, slots[k].fid) && slots[k].fid in Live(slots, lo, hi);
      }
    }
  }

  lemma RaiseFloor(slots: seq<Slot>, lo: nat, hi: nat, floor: nat)
    requires |slots| == CACHE_SIZE && forall k :: 0 <= k < CACHE_SIZE ==> SlotOk(slots[k], k, lo, hi)
    requires lo <= floor <= hi && forall g :: g in Live(slots, lo, hi) ==> g > floor
    ensures Live(slots, floor, hi) == Live(slots, lo, hi)
    ensures forall k :: 0 <= k < CACHE_SIZE ==> SlotOk(slots[k], k, floor, hi)
  {
    forall k | 0 <= k < CACHE_SIZE ensures SlotOk(slots[k], k, floor, hi) {
      if slots[k].segNumber > 0 { assert Holds(slots, slots[k].fid) && slots[k].fid in Live(slots, lo, hi); }
    }
  }

  lemma LiveStore(slots: seq<Slot>, lo: nat, hi: nat, f: nat, s: Slot)
    requires |slots| == CACHE_SIZE && forall k :: 0 <= k < CACHE_SIZE ==> SlotOk(slots[k], k, lo, hi)
    requires lo < f <= hi <= lo + CACHE_SIZE && s.fid == f && FrameOk(s)
    requires slots[f % CACHE_SIZE].segNumber > 0 ==> slots[f % CACHE_SIZE].fid == f
    ensures var after := slots[f % CACHE_SIZE := s];
      && Live(after, lo, hi) == Live(slots, lo, hi)[f := s]
      && forall k :: 0 <= k < CACHE_SIZE ==> SlotOk(after[k], k, lo, hi)
  {
  }
}
