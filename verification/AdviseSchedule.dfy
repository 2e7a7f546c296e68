// The clock's list of pending advises (ReCapABR/sim_test/echo/baseclasses/schedule.cpp and schedule.h).

/** The list as a value: sorted entries, and what each operation makes of them. */
module AdviseLists {
  import opened Wrappers

  /** The time of the sentinel at the end of the list. */
  const MAX_TIME: int := 0x7FFF_FFFF_FFFF_FFFF

  datatype Entry = Entry(cookie: nat, time: int, period: int, notify: nat, periodic: bool)

  /** One signal: which advise, when it was due, which handle. */
  datatype Firing = Firing(cookie: nat, time: int, notify: nat)

  predicate Sorted(s: seq<Entry>) {
    forall i, j :: 0 <= i < j < |s| ==> s[i].time <= s[j].time
  }

  predicate UniqueCookies(s: seq<Entry>) {
    forall i, j :: 0 <= i < j < |s| ==> s[i].cookie != s[j].cookie
  }

  /** A due periodic advise has a positive period. */
  predicate MovesOn(e: Entry, t: int) {
    e.periodic && e.time <= t ==> e.period > 0
  }

  predicate Servable(s: seq<Entry>, t: int) {
    forall e :: e in s ==> MovesOn(e, t)
  }

  /** No due time passes the sentinel while times up to t are served. */
  predicate BelowEnd(s: seq<Entry>, t: int) {
    forall e :: e in s && e.periodic && e.time <= t ==> t + e.period < MAX_TIME
  }

  /** The position of the first entry not before a time. */
  function NotBefore(s: seq<Entry>, time: int): (k: nat)
    ensures k <= |s|
    ensures forall i :: 0 <= i < k ==> s[i].time < time
    ensures k < |s| ==> s[k].time >= time
  {
    if s == [] || s[0].time >= time then 0 else 1 + NotBefore(s[1..], time)
  }

  /** The position of the first entry after a time. */
  function After(s: seq<Entry>, time: int): (k: nat)
    ensures k <= |s|
    ensures forall i :: 0 <= i < k ==> s[i].time <= time
    ensures k < |s| ==> s[k].time > time
  {
    if s == [] || s[0].time > time then 0 else 1 + After(s[1..], time)
  }

  function Place(s: seq<Entry>, k: nat, e: Entry): seq<Entry>
    requires k <= |s|
  {
    s[..k] + [e] + s[k..]
  }

  /** AddAdvisePacket puts a new entry before those of the same time. */
  function Added(s: seq<Entry>, e: Entry): seq<Entry> {
    Place(s, NotBefore(s, e.time), e)
  }

  /** ShuntHead moves the head behind those of the same time. */
  function Shunted(s: seq<Entry>): seq<Entry>
    requires s != []
  {
    Place(s[1..], After(s[1..], s[0].time), s[0])
  }

  function Moved(e: Entry): Entry {
    e.(time := e.time + e.period)
  }

  /** One round of the loop in Advise, which serves the head. */
  function Served(s: seq<Entry>): seq<Entry>
    requires s != []
  {
    if s[0].periodic then Shunted([Moved(s[0])] + s[1..]) else s[1..]
  }

  function FiringOf(e: Entry): Firing {
    Firing(e.cookie, e.time, e.notify)
  }

  lemma ShuntedAt(s: seq<Entry>, i: nat)
    requires s != [] && i == After(s, s[0].time)
    ensures 1 <= i <= |s| && Shunted(s) == Place(s[1..], i - 1, s[0])
    ensures i == 1 ==> Shunted(s) == s
  {
  }

  // ---- what one advise is owed ----

  /** The due times of an advise up to t. */
  function Times(e: Entry, t: int): seq<int>
    requires MovesOn(e, t)
    decreases t - e.time
  {
    if e.time > t then []
    else if e.periodic then [e.time] + Times(Moved(e), t)
    else [e.time]
  }

  /** What is left of an advise once everything due by t was signalled. */
  function Settled(e: Entry, t: int): Option<Entry>
    requires MovesOn(e, t)
    decreases t - e.time
  {
    if e.time > t then Some(e)
    else if e.periodic then Settled(Moved(e), t)
    else None
  }

  /** A periodic advise is signalled floor((t - e) / p) + 1 times, at e, e + p, ..., and moved to the next time. */
  lemma {:induction false} PeriodicTimes(e: Entry, t: int)
    requires e.periodic && e.period > 0 && e.time <= t
    ensures var n := (t - e.time) / e.period + 1;
      && |Times(e, t)| == n
      && (forall k :: 0 <= k < n ==> Times(e, t)[k] == e.time + k * e.period)
      && Settled(e, t) == Some(e.(time := e.time + n * e.period))
      && t < e.time + n * e.period <= t + e.period
    decreases t - e.time
  {
    var m := Moved(e);
    var p := e.period;
    DivStep(t - e.time, p);
    if m.time <= t {
      PeriodicTimes(m, t);
      var n := (t - m.time) / p + 1;
      forall k | 0 <= k < n + 1 ensures Times(e, t)[k] == e.time + k * p {
        if k > 0 { Shift(k - 1, p); }
      }
      Shift(n, p);
    } else {
      assert Times(m, t) == [] && Settled(m, t) == Some(m);
    }
  }

  lemma Shift(k: int, p: int)
    ensures (k + 1) * p == p + k * p
  {
  }

  lemma DivStep(a: int, p: int)
    requires a >= 0 && p > 0
    ensures a >= p ==> a / p == (a - p) / p + 1
    ensures a < p ==> a / p == 0
  {
    if a >= p {
      var q, r := (a - p) / p, (a - p) % p;
      assert a - p == p * q + r;
      assert a == p * (q + 1) + r by { Shift(q, p); }
      Unique(a, p, q + 1, r);
    } else {
      Unique(a, p, 0, a);
    }
  }

  lemma Unique(a: int, p: int, q: int, r: int)
    requires p > 0 && 0 <= r < p && a == p * q + r
    ensures a / p == q
  {
    var d := a / p - q;
    assert a == p * (a / p) + a % p;
    assert p * d == r - a % p by { assert p * d == p * (a / p) - p * q; }
    if d > 0 { Positive(d, p); }
    if d < 0 { Positive(-d, p); }
  }

  lemma Positive(d: int, p: int)
    requires d > 0 && p > 0
    ensures p * d >= p
  {
  }

  // ---- the whole list ----

  /** The number of signals still owed up to t. */
  function Work(s: seq<Entry>, t: int): nat
    requires Servable(s, t)
  {
    if s == [] then 0 else |Times(s[0], t)| + Work(s[1..], t)
  }

  lemma {:induction false} WorkPlace(s: seq<Entry>, k: nat, e: Entry, t: int)
    requires k <= |s| && Servable(s, t) && MovesOn(e, t)
    ensures Servable(Place(s, k, e), t)
    ensures Work(Place(s, k, e), t) == |Times(e, t)| + Work(s, t)
  {
    if k > 0 {
      WorkPlace(s[1..], k - 1, e, t);
      assert Place(s, k, e)[1..] == Place(s[1..], k - 1, e);
    } else {
      assert Place(s, k, e)[1..] == s;
    }
  }

  /** Serving the head pays exactly one of the signals owed. */
  lemma ServedPays(s: seq<Entry>, t: int)
    requires s != [] && s[0].time <= t && Servable(s, t)
    ensures Servable(Served(s), t)
    ensures Work(Served(s), t) == Work(s, t) - 1
  {
    if s[0].periodic {
      var m := Moved(s[0]);
      assert MovesOn(s[0], t);
      assert ([m] + s[1..])[1..] == s[1..];
      WorkPlace(s[1..], After(s[1..], m.time), m, t);
    }
  }

  /** Advise: the list afterwards and the signals given, in order. */
  function Advised(s: seq<Entry>, t: int): (r: (seq<Entry>, seq<Firing>))
    requires Servable(s, t)
    decreases Work(s, t)
  {
    if s == [] || s[0].time > t then (s, [])
    else
      ServedPays(s, t);
      var (after, fired) := Advised(Served(s), t);
      (after, [FiringOf(s[0])] + fired)
  }

  /** Serving started from one list, has come to another, and gave some signals on the way. */
  predicate Owed(start: seq<Entry>, s: seq<Entry>, t: int, fired: seq<Firing>)
    requires Servable(start, t) && Servable(s, t)
  {
    Advised(start, t) == (Advised(s, t).0, fired + Advised(s, t).1)
  }

  lemma OwedEnds(s: seq<Entry>, t: int)
    requires Servable(s, t)
    ensures Owed(s, s, t, [])
  {
    assert [] + Advised(s, t).1 == Advised(s, t).1;
  }

  lemma OwedNothing(start: seq<Entry>, s: seq<Entry>, t: int, fired: seq<Firing>)
    requires Servable(start, t) && Servable(s, t) && Owed(start, s, t, fired) && (s == [] || s[0].time > t)
    ensures Advised(start, t) == (s, fired)
  {
    assert fired + [] == fired;
  }

  lemma OwedStep(start: seq<Entry>, s: seq<Entry>, t: int, fired: seq<Firing>)
    requires Servable(start, t) && Servable(s, t) && s != [] && s[0].time <= t && Owed(start, s, t, fired)
    ensures Servable(Served(s), t) && Owed(start, Served(s), t, fired + [FiringOf(s[0])])
  {
    ServedPays(s, t);
    var rest := Advised(Served(s), t).1;
    assert fired + ([FiringOf(s[0])] + rest) == (fired + [FiringOf(s[0])]) + rest;
  }

  lemma ServedBelowEnd(s: seq<Entry>, t: int)
    requires s != [] && s[0].time <= t && BelowEnd(s, t)
    ensures BelowEnd(Served(s), t)
  {
  }

  // ---- sortedness and cookies ----

  lemma PlaceSorted(s: seq<Entry>, k: nat, e: Entry)
    requires Sorted(s) && k <= |s|
    requires (forall i :: 0 <= i < k ==> s[i].time <= e.time) && (k < |s| ==> e.time <= s[k].time)
    ensures Sorted(Place(s, k, e))
  {
  }

  lemma AddedKeeps(s: seq<Entry>, e: Entry)
    requires Sorted(s) && UniqueCookies(s) && forall o :: o in s ==> o.cookie != e.cookie
    ensures Sorted(Added(s, e)) && UniqueCookies(Added(s, e)) && |Added(s, e)| == |s| + 1
    ensures forall c :: Find(Added(s, e), c) == if c == e.cookie then Some(e) else Find(s, c)
  {
    PlaceSorted(s, NotBefore(s, e.time), e);
    PlaceUnique(s, NotBefore(s, e.time), e);
    forall c ensures Find(Added(s, e), c) == if c == e.cookie then Some(e) else Find(s, c) {
      FindPlace(s, NotBefore(s, e.time), e, c);
    }
  }

  lemma PlaceUnique(s: seq<Entry>, k: nat, e: Entry)
    requires k <= |s| && UniqueCookies(s) && forall i :: 0 <= i < |s| ==> s[i].cookie != e.cookie
    ensures UniqueCookies(Place(s, k, e))
  {
  }

  lemma ShuntedKeeps(s: seq<Entry>)
    requires s != [] && Sorted(s[1..]) && UniqueCookies(s)
    ensures Sorted(Shunted(s)) && UniqueCookies(Shunted(s)) && |Shunted(s)| == |s|
  {
    var k := After(s[1..], s[0].time);
    PlaceSorted(s[1..], k, s[0]);
    PlaceUnique(s[1..], k, s[0]);
  }

  lemma ServedKeeps(s: seq<Entry>)
    requires s != [] && Sorted(s) && UniqueCookies(s)
    ensures Sorted(Served(s)) && UniqueCookies(Served(s))
    ensures |Served(s)| == if s[0].periodic then |s| else |s| - 1
  {
    if s[0].periodic {
      var m := [Moved(s[0])] + s[1..];
      assert m[1..] == s[1..];
      ShuntedKeeps(m);
    }
  }

  // ---- when the loop does not end ----

  /** The list after at most n rounds of the loop in Advise. */
  function Rounds(s: seq<Entry>, t: int, n: nat): seq<Entry>
    decreases n
  {
    if n == 0 || s == [] || s[0].time > t then s else Rounds(Served(s), t, n - 1)
  }

  /** A due periodic advise without a positive period. */
  predicate Stuck(s: seq<Entry>, t: int, e: Entry) {
    e in s && e.periodic && e.period <= 0 && e.time <= t
  }

  lemma StuckHead(s: seq<Entry>, t: int, e: Entry)
    requires Sorted(s) && Stuck(s, t, e)
    ensures s != [] && s[0].time <= t
  {
  }

  lemma StuckStays(s: seq<Entry>, t: int, e: Entry)
    requires Sorted(s) && Stuck(s, t, e)
    ensures Stuck(Served(s), t, if e == s[0] then Moved(e) else e)
  {
  }

  /** It keeps the loop going for ever: after any number of rounds the head is still due. */
  lemma {:induction false} StuckNeverEnds(s: seq<Entry>, t: int, e: Entry, n: nat)
    requires Sorted(s) && UniqueCookies(s) && Stuck(s, t, e)
    ensures Rounds(s, t, n) != [] && Rounds(s, t, n)[0].time <= t
    decreases n
  {
    StuckHead(s, t, e);
    if n > 0 {
      ServedKeeps(s);
      StuckStays(s, t, e);
      StuckNeverEnds(Served(s), t, if e == s[0] then Moved(e) else e, n - 1);
    }
  }

  /** Otherwise the loop ends after one round for each signal owed. */
  lemma {:induction false} AdviseEnds(s: seq<Entry>, t: int)
    requires Sorted(s) && UniqueCookies(s) && Servable(s, t)
    ensures Rounds(s, t, Work(s, t)) == Advised(s, t).0
    decreases Work(s, t)
  {
    if s != [] && s[0].time <= t {
      ServedPays(s, t);
      ServedKeeps(s);
      AdviseEnds(Served(s), t);
    } else {
      NothingOwed(s, t);
    }
  }

  /** The loop ends within n rounds. */
  predicate EndsBy(s: seq<Entry>, t: int, n: nat) {
    var r := Rounds(s, t, n);
    r == [] || r[0].time > t
  }

  /** The loop ends if and only if no due periodic advise lacks a positive period. */
  lemma AdviseEndsIff(s: seq<Entry>, t: int)
    requires Sorted(s) && UniqueCookies(s)
    ensures (exists n: nat :: EndsBy(s, t, n)) <==> forall e :: e in s && e.periodic && e.time <= t ==> e.period > 0
  {
    if Servable(s, t) {
      AdviseEnds(s, t);
      AdviseIsOrdered(s, t);
      assert EndsBy(s, t, Work(s, t));
    } else {
      var e :| e in s && !MovesOn(e, t);
      forall n: nat ensures !EndsBy(s, t, n) {
        StuckNeverEnds(s, t, e, n);
      }
    }
  }

  // ---- following one advise by its cookie ----

  function Find(s: seq<Entry>, c: nat): (r: Option<Entry>)
    ensures r.Some? ==> r.value in s && r.value.cookie == c
  {
    if s == [] then None else if s[0].cookie == c then Some(s[0]) else Find(s[1..], c)
  }

  lemma {:induction false} FindNone(s: seq<Entry>, c: nat)
    ensures Find(s, c) == None <==> forall e :: e in s ==> e.cookie != c
  {
    if s != [] { FindNone(s[1..], c); }
  }

  lemma {:induction false} FindPlace(s: seq<Entry>, k: nat, e: Entry, c: nat)
    requires k <= |s| && forall o :: o in s ==> o.cookie != e.cookie
    ensures Find(Place(s, k, e), c) == if c == e.cookie then Some(e) else Find(s, c)
  {
    if k > 0 {
      FindPlace(s[1..], k - 1, e, c);
      assert Place(s, k, e)[1..] == Place(s[1..], k - 1, e);
    } else {
      assert Place(s, k, e)[1..] == s;
    }
  }

  lemma FindServed(s: seq<Entry>, c: nat)
    requires s != [] && UniqueCookies(s)
    ensures Find(Served(s), c) ==
            if c != s[0].cookie then Find(s, c) else if s[0].periodic then Some(Moved(s[0])) else None
  {
    forall o | o in s[1..] ensures o.cookie != s[0].cookie { }
    FindNone(s[1..], s[0].cookie);
    if s[0].periodic {
      var m := Moved(s[0]);
      assert ([m] + s[1..])[1..] == s[1..];
      FindPlace(s[1..], After(s[1..], m.time), m, c);
    }
  }

  /** The times at which one advise was signalled. */
  function SignalsOf(fired: seq<Firing>, c: nat): seq<int> {
    if fired == [] then []
    else (if fired[0].cookie == c then [fired[0].time] else []) + SignalsOf(fired[1..], c)
  }

  /** Advise is exact: every advise is signalled at precisely its due times up to t and settled accordingly. */
  lemma {:induction false} AdviseIsExact(s: seq<Entry>, t: int, c: nat)
    requires Sorted(s) && UniqueCookies(s) && Servable(s, t)
    ensures var (after, fired) := Advised(s, t); var e := Find(s, c);
      && SignalsOf(fired, c) == (if e.Some? then Times(e.value, t) else [])
      && Find(after, c) == (if e.Some? then Settled(e.value, t) else None)
    decreases Work(s, t)
  {
    if s != [] && s[0].time <= t {
      ServedPays(s, t);
      ServedKeeps(s);
      FindServed(s, c);
      AdviseIsExact(Served(s), t, c);
      var (_, fired) := Advised(Served(s), t);
      assert ([FiringOf(s[0])] + fired)[1..] == fired;
    } else {
      NothingDue(s, t, c);
    }
  }

  lemma {:induction false} NothingDue(s: seq<Entry>, t: int, c: nat)
    requires Sorted(s) && (s == [] || s[0].time > t)
    ensures var e := Find(s, c); e.Some? ==> e.value.time > t
  {
  }

  /** Due times that do not decrease, none before low and none after t. */
  predicate InOrder(fired: seq<Firing>, low: int, t: int) {
    && (forall i, j :: 0 <= i < j < |fired| ==> fired[i].time <= fired[j].time)
    && (forall i :: 0 <= i < |fired| ==> low <= fired[i].time <= t)
  }

  predicate Later(s: seq<Entry>, t: int) {
    forall i :: 0 <= i < |s| ==> s[i].time > t
  }

  /** The first due time, or t when nothing is left. */
  function Earliest(s: seq<Entry>, t: int): int {
    if s == [] then t else s[0].time
  }

  /** Signals come in order of due time, all due by t; what remains is sorted, due after t, and uniquely numbered. */
  lemma {:induction false} AdviseIsOrdered(s: seq<Entry>, t: int)
    requires Sorted(s) && UniqueCookies(s) && Servable(s, t)
    ensures var (after, fired) := Advised(s, t);
      && InOrder(fired, Earliest(s, t), t) && |fired| == Work(s, t)
      && Sorted(after) && UniqueCookies(after) && Later(after, t)
    decreases Work(s, t)
  {
    if s != [] && s[0].time <= t {
      ServedPays(s, t);
      ServedKeeps(s);
      ServedIsLater(s, t);
      AdviseIsOrdered(Served(s), t);
      FiredFirst(FiringOf(s[0]), Advised(Served(s), t).1, Earliest(Served(s), t), t);
    } else {
      NothingOwed(s, t);
    }
  }

  lemma ServedIsLater(s: seq<Entry>, t: int)
    requires s != [] && Sorted(s) && Servable(s, t) && s[0].time <= t
    ensures s[0].time <= Earliest(Served(s), t)
  {
    assert MovesOn(s[0], t);
  }

  lemma FiredFirst(f: Firing, fired: seq<Firing>, low: int, t: int)
    requires InOrder(fired, low, t) && f.time <= low && f.time <= t
    ensures InOrder([f] + fired, f.time, t)
  {
  }

  lemma {:induction false} NothingOwed(s: seq<Entry>, t: int)
    requires Servable(s, t) && forall i :: 0 <= i < |s| ==> s[i].time > t
    ensures Work(s, t) == 0
  {
    if s != [] { NothingOwed(s[1..], t); }
  }

  // ---- cancelling ----

  /** The position of the entry with a cookie. */
  function IndexOf(s: seq<Entry>, c: nat): (k: nat)
    ensures k <= |s|
    ensures k < |s| ==> s[k].cookie == c
    ensures forall i :: 0 <= i < k ==> s[i].cookie != c
  {
    if s == [] || s[0].cookie == c then 0 else 1 + IndexOf(s[1..], c)
  }

  /** Unadvise. */
  function Cancelled(s: seq<Entry>, c: nat): seq<Entry> {
    var k := IndexOf(s, c);
    if k < |s| then s[..k] + s[k + 1..] else s
  }

  lemma CancelledOrder(s: seq<Entry>, c: nat)
    requires Sorted(s) && UniqueCookies(s)
    ensures Sorted(Cancelled(s, c)) && UniqueCookies(Cancelled(s, c))
    ensures forall e :: e in Cancelled(s, c) ==> e in s && e.cookie != c
  {
    var k := IndexOf(s, c);
    if k < |s| {
      var r := Cancelled(s, c);
      assert forall i :: 0 <= i < |r| ==> r[i] == s[if i < k then i else i + 1];
    } else {
      FindNone(s, c);
    }
  }

  /** Cancelling forgets one cookie and nothing else. */
  lemma CancelledKeeps(s: seq<Entry>, c: nat, q: nat)
    requires Sorted(s) && UniqueCookies(s)
    ensures Sorted(Cancelled(s, c)) && UniqueCookies(Cancelled(s, c))
    ensures Find(Cancelled(s, c), q) == if q == c then None else Find(s, q)
    ensures |Cancelled(s, c)| == if Find(s, c).Some? then |s| - 1 else |s|
  {
    CancelledOrder(s, c);
    FindNone(s, c);
    FindNone(Cancelled(s, c), c);
    var k := IndexOf(s, c);
    if k < |s| {
      FindRejoined(s, k, q);
    }
  }

  lemma FindRejoined(s: seq<Entry>, k: nat, q: nat)
    requires k < |s| && UniqueCookies(s)
    ensures Find(s, q) == if q == s[k].cookie then Some(s[k]) else Find(s[..k] + s[k + 1..], q)
  {
    var r := s[..k] + s[k + 1..];
    assert Place(r, k, s[k]) == s;
    forall i | 0 <= i < |r| ensures r[i].cookie != s[k].cookie {
      assert r[i] == s[if i < k then i else i + 1];
    }
    FindPlace(r, k, s[k], q);
  }

  // ---- runs ----

  datatype State = State(list: seq<Entry>, nextCookie: nat)

  datatype Op = Add(time: int, period: int, notify: nat, periodic: bool) | Cancel(cookie: nat) | Advise(now: int)

  predicate Enabled(st: State, op: Op) {
    op.Advise? ==> Servable(st.list, op.now)
  }

  function Step(st: State, op: Op): State
    requires Enabled(st, op)
  {
    match op
    case Add(time, period, notify, periodic) =>
      State(Added(st.list, Entry(st.nextCookie + 1, time, period, notify, periodic)), st.nextCookie + 1)
    case Cancel(c) => st.(list := Cancelled(st.list, c))
    case Advise(now) => st.(list := Advised(st.list, now).0)
  }

  /** The list is sorted by time, and cookies are unique and were all issued. */
  ghost predicate Inv(st: State) {
    && Sorted(st.list) && UniqueCookies(st.list)
    && Issued(st.list, st.nextCookie)
  }

  predicate Issued(s: seq<Entry>, n: nat) {
    forall i :: 0 <= i < |s| ==> 1 <= s[i].cookie <= n
  }

  lemma ServedIssued(s: seq<Entry>, n: nat)
    requires s != [] && Issued(s, n)
    ensures Issued(Served(s), n)
  {
  }

  lemma {:induction false} AdvisedIssued(s: seq<Entry>, t: int, n: nat)
    requires Servable(s, t) && Issued(s, n)
    ensures Issued(Advised(s, t).0, n)
    decreases Work(s, t)
  {
    if s != [] && s[0].time <= t {
      ServedPays(s, t);
      ServedIssued(s, n);
      AdvisedIssued(Served(s), t, n);
    }
  }

  lemma AddKeeps(st: State, e: Entry)
    requires Inv(st) && e.cookie == st.nextCookie + 1
    ensures Inv(State(Added(st.list, e), e.cookie))
  {
    var s, k := st.list, NotBefore(st.list, e.time);
    forall o | o in s ensures o.cookie != e.cookie { IssuedMember(s, st.nextCookie, o); }
    PlaceSorted(s, k, e);
    PlaceUnique(s, k, e);
    PlaceIssued(s, k, e, e.cookie);
  }

  lemma IssuedMember(s: seq<Entry>, n: nat, e: Entry)
    requires Issued(s, n) && e in s
    ensures 1 <= e.cookie <= n
  {
  }

  lemma PlaceIssued(s: seq<Entry>, k: nat, e: Entry, n: nat)
    requires k <= |s| && (forall i :: 0 <= i < |s| ==> 1 <= s[i].cookie <= n) && 1 <= e.cookie <= n
    ensures Issued(Place(s, k, e), n)
  {
  }

  lemma CancelKeeps(st: State, c: nat)
    requires Inv(st)
    ensures Inv(st.(list := Cancelled(st.list, c)))
  {
    CancelledOrder(st.list, c);
    forall e | e in Cancelled(st.list, c) ensures 1 <= e.cookie <= st.nextCookie {
      IssuedMember(st.list, st.nextCookie, e);
    }
  }

  lemma AdviseKeeps(st: State, now: int)
    requires Inv(st) && Servable(st.list, now)
    ensures Inv(st.(list := Advised(st.list, now).0))
  {
    AdviseIsOrdered(st.list, now);
    AdvisedIssued(st.list, now, st.nextCookie);
  }

  lemma StepKeeps(st: State, op: Op)
    requires Inv(st) && Enabled(st, op)
    ensures Inv(Step(st, op))
  {
    if op.Add? {
      AddKeeps(st, Entry(st.nextCookie + 1, op.time, op.period, op.notify, op.periodic));
    } else if op.Cancel? {
      CancelKeeps(st, op.cookie);
    } else {
      AdviseKeeps(st, op.now);
    }
  }

  predicate Feasible(st: State, ops: seq<Op>)
    decreases |ops|
  {
    ops == [] || (Enabled(st, ops[0]) && Feasible(Step(st, ops[0]), ops[1..]))
  }

  function Run(st: State, ops: seq<Op>): State
    requires Feasible(st, ops)
    decreases |ops|
  {
    if ops == [] then st else Run(Step(st, ops[0]), ops[1..])
  }

  /** Every run keeps the list sorted and its cookies unique. */
  lemma {:induction false} RunKeeps(st: State, ops: seq<Op>)
    requires Inv(st) && Feasible(st, ops)
    ensures Inv(Run(st, ops))
    decreases |ops|
  {
    if ops != [] {
      StepKeeps(st, ops[0]);
      RunKeeps(Step(st, ops[0]), ops[1..]);
    }
  }

  // ---- one advise in a run ----

  /** The signals of a run, in order. */
  function Signals(st: State, ops: seq<Op>): seq<Firing>
    requires Feasible(st, ops)
    decreases |ops|
  {
    if ops == [] then []
    else (if ops[0].Advise? then Advised(st.list, ops[0].now).1 else []) + Signals(Step(st, ops[0]), ops[1..])
  }

  /** What is left of the advise with a cookie, and the times at which it was signalled. */
  datatype Life = Life(left: Option<Entry>, signals: seq<int>)

  predicate Serves(e: Option<Entry>, now: int) {
    e.Some? ==> MovesOn(e.value, now)
  }

  /** What one operation does to an advise that is alone, when n cookies were issued. */
  function Lives(e: Option<Entry>, n: nat, c: nat, op: Op): (r: Life)
    requires op.Advise? ==> Serves(e, op.now)
  {
    match op
    case Add(time, period, notify, periodic) =>
      Life(if n + 1 == c then Some(Entry(c, time, period, notify, periodic)) else e, [])
    case Cancel(cookie) => Life(if cookie == c then None else e, [])
    case Advise(now) =>
      if e.Some? then Life(Settled(e.value, now), Times(e.value, now)) else Life(None, [])
  }

  function Issuing(n: nat, op: Op): nat { if op.Add? then n + 1 else n }

  /** The life of the advise with cookie c, alone, through a run; the run goes on while the advise moves on. */
  function Alone(e: Option<Entry>, n: nat, c: nat, ops: seq<Op>): Life
    decreases |ops|
  {
    if ops == [] || (ops[0].Advise? && !Serves(e, ops[0].now)) then Life(e, [])
    else
      var l := Lives(e, n, c, ops[0]);
      var rest := Alone(l.left, Issuing(n, ops[0]), c, ops[1..]);
      Life(rest.left, l.signals + rest.signals)
  }

  lemma FoundServes(st: State, now: int, c: nat)
    requires Servable(st.list, now)
    ensures Serves(Find(st.list, c), now)
  {
  }

  lemma StepLives(st: State, op: Op, c: nat)
    requires Inv(st) && Enabled(st, op)
    ensures op.Advise? ==> Serves(Find(st.list, c), op.now)
    ensures var z := Step(st, op);
      && z.nextCookie == Issuing(st.nextCookie, op)
      && Lives(Find(st.list, c), st.nextCookie, c, op)
         == Life(Find(z.list, c), if op.Advise? then SignalsOf(Advised(st.list, op.now).1, c) else [])
  {
    match op
    case Add(time, period, notify, periodic) =>
      var e := Entry(st.nextCookie + 1, time, period, notify, periodic);
      forall o | o in st.list ensures o.cookie != e.cookie { IssuedMember(st.list, st.nextCookie, o); }
      AddedKeeps(st.list, e);
    case Cancel(cookie) => CancelledKeeps(st.list, cookie, c);
    case Advise(now) =>
      FoundServes(st, now, c);
      AdviseIsExact(st.list, now, c);
  }

  lemma {:induction false} SignalsJoin(a: seq<Firing>, b: seq<Firing>, c: nat)
    ensures SignalsOf(a + b, c) == SignalsOf(a, c) + SignalsOf(b, c)
    decreases |a|
  {
    if a == [] {
      assert a + b == b;
    } else {
      assert (a + b)[0] == a[0] && (a + b)[1..] == a[1..] + b;
      SignalsJoin(a[1..], b, c);
      Associative(if a[0].cookie == c then [a[0].time] else [], SignalsOf(a[1..], c), SignalsOf(b, c));
    }
  }

  lemma Associative(a: seq<int>, b: seq<int>, c: seq<int>)
    ensures a + (b + c) == (a + b) + c
  {
  }

  /**
   * In every run each advise lives as if it were alone: it is signalled at its own due times and left as they say,
   * whatever else is added, cancelled or served.
   */
  lemma {:induction false} AdvisesAreIndependent(st: State, ops: seq<Op>, c: nat)
    requires Inv(st) && Feasible(st, ops)
    ensures Alone(Find(st.list, c), st.nextCookie, c, ops)
            == Life(Find(Run(st, ops).list, c), SignalsOf(Signals(st, ops), c))
    decreases |ops|
  {
    if ops != [] {
      StepKeeps(st, ops[0]);
      StepLives(st, ops[0], c);
      AdvisesAreIndependent(Step(st, ops[0]), ops[1..], c);
      SignalsJoin(if ops[0].Advise? then Advised(st.list, ops[0].now).1 else [], Signals(Step(st, ops[0]), ops[1..]), c);
    }
  }
}

/** The linked list with its two sentinels and its cache of unused packets. */
module AdviseSchedules {
  import opened AdviseLists

  const CACHE_MAX: nat := 5

  class AdvisePacket {
    var next: AdvisePacket?
    var cookie: nat
    var time: int
    var period: int
    var notify: nat
    var periodic: bool

    constructor (next: AdvisePacket?, time: int)
      ensures this.next == next && this.time == time
    {
      this.next, this.time := next, time;
      cookie, period, notify, periodic := 0, 0, 0, false;
    }
  }

  function EntryOf(p: AdvisePacket): Entry
    reads p
  {
    Entry(p.cookie, p.time, p.period, p.notify, p.periodic)
  }

  ghost function Entries(ps: seq<AdvisePacket>): (s: seq<Entry>)
    reads ps
    ensures |s| == |ps| && forall i :: 0 <= i < |ps| ==> s[i] == EntryOf(ps[i])
  {
    seq(|ps|, i requires 0 <= i < |ps| reads ps => EntryOf(ps[i]))
  }

  /** Node i of the chain head, ps[0], ps[1], ..., z. */
  ghost function NodeOf(head: AdvisePacket, ps: seq<AdvisePacket>, z: AdvisePacket, i: nat): AdvisePacket {
    if i == 0 then head else if i <= |ps| then ps[i - 1] else z
  }

  ghost predicate LinkAt(head: AdvisePacket, ps: seq<AdvisePacket>, z: AdvisePacket, i: nat)
    reads head, ps, z
  {
    i <= |ps| ==> NodeOf(head, ps, z, i).next == NodeOf(head, ps, z, i + 1)
  }

  ghost predicate ApartAt(head: AdvisePacket, ps: seq<AdvisePacket>, z: AdvisePacket, i: nat, j: nat) {
    i < j <= |ps| + 1 ==> NodeOf(head, ps, z, i) != NodeOf(head, ps, z, j)
  }

  ghost predicate Apart(head: AdvisePacket, ps: seq<AdvisePacket>, z: AdvisePacket) {
    forall i, j :: ApartAt(head, ps, z, i, j)
  }

  ghost function CachedNode(cached: seq<AdvisePacket>, i: nat): AdvisePacket? {
    if i < |cached| then cached[i] else null
  }

  ghost predicate CacheLink(cached: seq<AdvisePacket>, i: nat)
    reads cached
  {
    i < |cached| ==> cached[i].next == CachedNode(cached, i + 1) && cached[i] !in cached[i + 1..]
  }

  /** The unused packets are linked in order from first, each once. */
  ghost predicate Cache(first: AdvisePacket?, cached: seq<AdvisePacket>)
    reads cached
  {
    first == CachedNode(cached, 0) && forall i :: CacheLink(cached, i)
  }

  /** The packets are linked in order between the two sentinels, each once. */
  ghost predicate Chain(head: AdvisePacket, ps: seq<AdvisePacket>, z: AdvisePacket)
    reads head, ps, z
  {
    && z.time == MAX_TIME && z.next == null
    && (forall i :: LinkAt(head, ps, z, i))
    && Apart(head, ps, z)
  }

  ghost predicate Outside(p: AdvisePacket, head: AdvisePacket, ps: seq<AdvisePacket>, z: AdvisePacket) {
    p != head && p != z && p !in ps
  }

  lemma ApartInsert(head: AdvisePacket, ps: seq<AdvisePacket>, z: AdvisePacket, k: nat, p: AdvisePacket)
    requires k <= |ps| && Apart(head, ps, z) && Outside(p, head, ps, z)
    ensures Apart(head, ps[..k] + [p] + ps[k..], z)
  {
    var after := ps[..k] + [p] + ps[k..];
    forall i: nat, j: nat ensures ApartAt(head, after, z, i, j) {
      assert ApartAt(head, ps, z, if i <= k then i else i - 1, if j <= k then j else j - 1);
    }
  }

  lemma ApartRemove(head: AdvisePacket, ps: seq<AdvisePacket>, z: AdvisePacket, k: nat)
    requires k < |ps| && Apart(head, ps, z)
    ensures Apart(head, ps[..k] + ps[k + 1..], z)
    ensures Outside(ps[k], head, ps[..k] + ps[k + 1..], z)
  {
    var after := ps[..k] + ps[k + 1..];
    forall i: nat, j: nat ensures ApartAt(head, after, z, i, j) {
      assert ApartAt(head, ps, z, if i <= k then i else i + 1, if j <= k then j else j + 1);
    }
    assert ApartAt(head, ps, z, 0, k + 1) && ApartAt(head, ps, z, k + 1, |ps| + 1);
    forall j | 0 <= j < |after| ensures after[j] != ps[k] {
      assert ApartAt(head, ps, z, k + 1, j + 2) && ApartAt(head, ps, z, j + 1, k + 1);
    }
  }

  /** Links p in behind node k of the chain. */
  method LinkIn(head: AdvisePacket, ghost ps: seq<AdvisePacket>, z: AdvisePacket, prev: AdvisePacket, ghost k: nat,
                p: AdvisePacket)
    requires Chain(head, ps, z) && Outside(p, head, ps, z)
    requires k <= |ps| && prev == NodeOf(head, ps, z, k)
    modifies prev`next, p`next
    ensures Chain(head, ps[..k] + [p] + ps[k..], z)
  {
    ghost var after := ps[..k] + [p] + ps[k..];
    label Before:
    assert LinkAt(head, ps, z, k);
    p.next := prev.next;
    prev.next := p;
    ApartInsert(head, ps, z, k, p);
    forall i: nat ensures LinkAt(head, after, z, i) {
      var o := if i <= k then i else i - 1;
      assert old@Before(LinkAt(head, ps, z, o));
      assert ApartAt(head, ps, z, o, k) && ApartAt(head, ps, z, k, o);
    }
    assert ApartAt(head, ps, z, k, |ps| + 1);
  }

  /** Takes the packet behind node k out of the chain. */
  method LinkOut(head: AdvisePacket, ghost ps: seq<AdvisePacket>, z: AdvisePacket, prev: AdvisePacket, ghost k: nat)
      returns (p: AdvisePacket)
    requires Chain(head, ps, z)
    requires k < |ps| && prev == NodeOf(head, ps, z, k)
    modifies prev`next
    ensures p == ps[k] && Chain(head, ps[..k] + ps[k + 1..], z) && Outside(p, head, ps[..k] + ps[k + 1..], z)
  {
    ghost var after := ps[..k] + ps[k + 1..];
    label Before:
    assert LinkAt(head, ps, z, k) && LinkAt(head, ps, z, k + 1);
    p := prev.next;
    prev.next := p.next;
    ApartRemove(head, ps, z, k);
    forall i: nat ensures LinkAt(head, after, z, i) {
      var o := if i <= k then i else i + 1;
      assert old@Before(LinkAt(head, ps, z, o));
      assert ApartAt(head, ps, z, o, k) && ApartAt(head, ps, z, k, o);
    }
    assert ApartAt(head, ps, z, k, |ps| + 1);
  }

  class AMSchedule {
    const head: AdvisePacket
    const z: AdvisePacket
    var nextCookie: nat
    var adviseCount: nat
    var adviseCache: AdvisePacket?
    var cacheCount: nat
    ghost var packets: seq<AdvisePacket>
    ghost var cached: seq<AdvisePacket>

    ghost predicate Valid()
      reads this, head, z, packets, cached
    {
      && Chain(head, packets, z)
      && adviseCount == |packets|
      && Cache(adviseCache, cached) && cacheCount == |cached| <= CACHE_MAX
      && head !in cached && z !in cached && forall p :: p in packets ==> p !in cached
    }

    ghost function List(): seq<Entry>
      reads this, packets
    {
      Entries(packets)
    }

    constructor ()
      ensures Valid() && packets == [] && cached == [] && nextCookie == 0
      ensures fresh(head) && fresh(z)
    {
      var tail := new AdvisePacket(null, MAX_TIME);
      z := tail;
      head := new AdvisePacket(tail, 0);
      nextCookie, adviseCount, adviseCache, cacheCount := 0, 0, null, 0;
      packets, cached := [], [];
    }

    /** The packet after a node of the chain, and which node that is. */
    lemma NextNode(i: nat)
      requires Valid() && i <= |packets|
      ensures var n := NodeOf(head, packets, z, i).next;
        && n != null && n == NodeOf(head, packets, z, i + 1)
        && (n.next == null <==> i == |packets|)
        && (i < |packets| ==> n == packets[i] && EntryOf(n) == List()[i])
        && (i == |packets| ==> n == z)
    {
      assert LinkAt(head, packets, z, i) && LinkAt(head, packets, z, i + 1);
    }

    /** Delete: keeps up to five packets for reuse. */
    method Delete(p: AdvisePacket)
      requires Valid() && p != head && p != z && p !in packets && p !in cached
      modifies this`adviseCache, this`cacheCount, this`cached, p`next
      ensures Valid() && List() == old(List())
      ensures forall q :: q in cached ==> q in old(cached) || q == p
    {
      if cacheCount >= CACHE_MAX {
        return;
      }
      p.next := adviseCache;
      adviseCache := p;
      cached := [p] + cached;
      cacheCount := cacheCount + 1;
      forall i: nat ensures CacheLink(cached, i) {
        if 0 < i < |cached| {
          assert old(CacheLink(cached, i - 1)) && cached[i..] == old(cached)[i - 1..];
        }
      }
    }

    /** The node behind which a packet of the given time belongs. */
    method FirstNotBefore(time: int) returns (prev: AdvisePacket)
      requires Valid() && time < MAX_TIME
      ensures prev == NodeOf(head, packets, z, NotBefore(List(), time))
    {
      prev := head;
      ghost var i := 0;
      NextNode(0);
      var n := prev.next;
      while n.time < time
        invariant i <= |packets| && prev == NodeOf(head, packets, z, i) && n == NodeOf(head, packets, z, i + 1)
        invariant forall j :: 0 <= j < i ==> List()[j].time < time
        decreases |packets| - i
      {
        NextNode(i);
        prev := n;
        i := i + 1;
        NextNode(i);
        n := prev.next;
      }
      IsNotBefore(List(), time, i);
    }

    /** Links a packet in behind node k and counts it. */
    method PutAt(prev: AdvisePacket, ghost k: nat, p: AdvisePacket)
      requires Valid() && Outside(p, head, packets, z) && p !in cached
      requires k <= |packets| && prev == NodeOf(head, packets, z, k)
      modifies this`adviseCount, this`packets, p`next, prev`next
      ensures Valid()
      ensures packets == Linked(old(packets), p, k)
      ensures List() == Place(old(List()), k, EntryOf(p)) && EntryOf(p) == old(EntryOf(p))
    {
      assert prev !in cached;
      LinkIn(head, packets, z, prev, k, p);
      assert Cache(adviseCache, cached) by {
        forall j: nat ensures CacheLink(cached, j) {
          assert old(CacheLink(cached, j)) && (j < |cached| ==> cached[j] in cached);
        }
      }
      assert Entries(packets) == old(List());
      packets := Linked(packets, p, k);
      adviseCount := adviseCount + 1;
    }

    method Number(p: AdvisePacket)
      requires Valid() && Outside(p, head, packets, z) && p !in cached
      modifies this`nextCookie, p`cookie
      ensures Valid() && List() == old(List())
      ensures nextCookie == old(nextCookie) + 1 && EntryOf(p) == old(EntryOf(p)).(cookie := nextCookie)
    {
      nextCookie := nextCookie + 1;
      p.cookie := nextCookie;
    }

    /** The private AddAdvisePacket: numbers a packet, links it in by time, and says whether to wake the clock. */
    method Insert(p: AdvisePacket) returns (result: nat, wake: bool)
      requires Valid() && Outside(p, head, packets, z) && p !in cached && p.time < MAX_TIME
      modifies this`nextCookie, this`adviseCount, this`packets, p`cookie, p`next, head`next, packets`next
      ensures Valid()
      ensures result == nextCookie == old(nextCookie) + 1
      ensures List() == Added(old(List()), EntryOf(p)) && EntryOf(p) == old(EntryOf(p)).(cookie := result)
      ensures packets == Linked(old(packets), p, NotBefore(old(List()), p.time))
      ensures wake <==> NotBefore(old(List()), p.time) == 0
    {
      Number(p);
      result := nextCookie;
      var prev := FirstNotBefore(p.time);
      ghost var i := NotBefore(List(), p.time);
      assert prev == head <==> i == 0 by { assert ApartAt(head, packets, z, 0, i); }
      PutAt(prev, i, p);
      wake := prev == head;
    }

    /** An unused packet, from the cache if there is one. */
    method TakePacket() returns (p: AdvisePacket)
      requires Valid()
      modifies this`adviseCache, this`cacheCount, this`cached
      ensures Valid() && List() == old(List())
      ensures Outside(p, head, packets, z) && p !in cached && (fresh(p) || p in old(cached))
      ensures forall q :: q in cached ==> q in old(cached)
    {
      if adviseCache != null {
        p := adviseCache;
        assert CacheLink(cached, 0);
        adviseCache := p.next;
        cacheCount := cacheCount - 1;
        cached := cached[1..];
        forall i: nat ensures CacheLink(cached, i) {
          assert old(CacheLink(cached, i + 1)) && (i < |cached| ==> cached[i + 1..] == old(cached)[i + 2..]);
        }
      } else {
        p := new AdvisePacket(null, 0);
      }
    }

    method Fill(p: AdvisePacket, time1: int, time2: int, h: nat, periodic: bool)
      requires Valid() && Outside(p, head, packets, z) && p !in cached
      modifies p
      ensures Valid() && List() == old(List())
      ensures EntryOf(p) == Entry(p.cookie, time1, time2, h, periodic)
    {
      p.time, p.period, p.notify, p.periodic := time1, time2, h, periodic;
    }

    /** The public AddAdvisePacket. */
    method AddAdvise(time1: int, time2: int, h: nat, periodic: bool) returns (result: nat, wake: bool)
      requires Valid() && time1 < MAX_TIME
      modifies this, head`next, packets`next, cached
      ensures Valid()
      ensures result == nextCookie == old(nextCookie) + 1
      ensures List() == Added(old(List()), Entry(result, time1, time2, h, periodic))
      ensures wake <==> NotBefore(old(List()), time1) == 0
    {
      var p := TakePacket();
      Fill(p, time1, time2, h, periodic);
      result, wake := Insert(p);
    }

    /** Takes packet k out of the list. */
    method TakeAt(prev: AdvisePacket, ghost k: nat) returns (p: AdvisePacket)
      requires Valid()
      requires k < |packets| && prev == NodeOf(head, packets, z, k)
      modifies this`adviseCount, this`packets, prev`next
      ensures Valid() && Outside(p, head, packets, z) && p !in cached
      ensures p == old(packets)[k] && packets == old(packets)[..k] + old(packets)[k + 1..]
      ensures List() == old(List())[..k] + old(List())[k + 1..] && EntryOf(p) == old(List())[k]
    {
      assert prev !in cached;
      p := LinkOut(head, packets, z, prev, k);
      assert Cache(adviseCache, cached) by {
        forall j: nat ensures CacheLink(cached, j) {
          assert old(CacheLink(cached, j)) && (j < |cached| ==> cached[j] in cached);
        }
      }
      assert Entries(packets) == old(List());
      packets := packets[..k] + packets[k + 1..];
      adviseCount := adviseCount - 1;
    }

    method TakeHead() returns (p: AdvisePacket)
      requires Valid() && packets != []
      modifies this`adviseCount, this`packets, head`next
      ensures Valid() && Outside(p, head, packets, z) && p !in cached
      ensures p == old(packets)[0] && packets == old(packets)[1..]
      ensures List() == old(List())[1..] && EntryOf(p) == old(List())[0]
    {
      p := TakeAt(head, 0);
    }

    /** Unadvise. */
    method Unadvise(cookie: nat) returns (found: bool)
      requires Valid()
      modifies this, head`next, packets`next
      ensures Valid() && nextCookie == old(nextCookie)
      ensures List() == Cancelled(old(List()), cookie)
      ensures found <==> exists e :: e in old(List()) && e.cookie == cookie
    {
      var prev := FindCookie(cookie);
      ghost var i := IndexOf(List(), cookie);
      found := false;
      NextNode(i);
      if prev.next != z {
        var p := TakeAt(prev, i);
        Delete(p);
        found := true;
      }
    }

    /** The node before the packet with a cookie, or the last node before the end sentinel. */
    method FindCookie(cookie: nat) returns (prev: AdvisePacket)
      requires Valid()
      ensures prev == NodeOf(head, packets, z, IndexOf(List(), cookie))
    {
      prev := head;
      ghost var i := 0;
      NextNode(0);
      var n := prev.next;
      while n.next != null && n.cookie != cookie
        invariant i <= |packets| && prev == NodeOf(head, packets, z, i) && n == NodeOf(head, packets, z, i + 1)
        invariant n.next == null <==> i == |packets|
        invariant forall j :: 0 <= j < i ==> List()[j].cookie != cookie
        decreases |packets| - i
        modifies {}
      {
        NextNode(i);
        prev := n;
        i := i + 1;
        NextNode(i);
        n := prev.next;
      }
      IsIndexOf(List(), cookie, i);
    }

    /** The last node not after the head packet. */
    method LastNotAfterHead() returns (prev: AdvisePacket)
      requires Valid() && packets != [] && packets[0].time < MAX_TIME
      ensures prev == NodeOf(head, packets, z, After(List(), List()[0].time))
    {
      NextNode(0);
      var packet := head.next;
      prev := head;
      ghost var i := 0;
      var n := prev.next;
      while n.time <= packet.time
        invariant i <= |packets| && prev == NodeOf(head, packets, z, i) && n == NodeOf(head, packets, z, i + 1)
        invariant forall j :: 0 <= j < i ==> List()[j].time <= packet.time
        decreases |packets| - i
      {
        NextNode(i);
        prev := n;
        i := i + 1;
        NextNode(i);
        n := prev.next;
      }
      IsAfter(List(), packet.time, i);
    }

    /** Relinks the head behind node k. */
    method MoveHead(prev: AdvisePacket, ghost k: nat)
      requires Valid() && 2 <= k <= |packets| && prev == NodeOf(head, packets, z, k)
      modifies this`adviseCount, this`packets, head`next, packets`next
      ensures Valid() && packets == Linked(old(packets)[1..], old(packets)[0], k - 1)
      ensures List() == Place(old(List())[1..], k - 1, old(List())[0])
      ensures Among(packets, old(packets))
    {
      var p := TakeHead();
      PutAt(prev, k - 1, p);
      LinkedAmong(old(packets), k - 1);
    }

    method ShuntHead()
      requires Valid() && packets != [] && packets[0].time < MAX_TIME
      modifies this`adviseCount, this`packets, head`next, packets`next
      ensures Valid() && List() == Shunted(old(List()))
      ensures Among(packets, old(packets))
    {
      var prev := LastNotAfterHead();
      ghost var i := After(List(), List()[0].time);
      NextNode(0);
      ShuntedAt(List(), i);
      assert prev == head.next <==> i == 1 by { assert ApartAt(head, packets, z, 1, i); }
      if prev != head.next {
        MoveHead(prev, i);
      }
    }

    /** One round of the loop in Advise. */
    method ServeHead() returns (f: Firing)
      requires Valid() && packets != []
      requires packets[0].periodic ==> packets[0].time + packets[0].period < MAX_TIME
      modifies this, head`next, packets
      ensures Valid() && nextCookie == old(nextCookie)
      ensures List() == Served(old(List())) && f == FiringOf(old(List())[0])
      ensures Among(packets, old(packets))
    {
      NextNode(0);
      var p := head.next;
      f := FiringOf(EntryOf(p));
      if p.periodic {
        Delay(p);
        ShuntHead();
      } else {
        p := TakeHead();
        Delete(p);
      }
    }

    method Delay(p: AdvisePacket)
      requires Valid() && packets != [] && p == packets[0]
      modifies p`time
      ensures Valid() && List() == [Moved(old(List())[0])] + old(List())[1..]
    {
      assert ApartAt(head, packets, z, 0, 1) && ApartAt(head, packets, z, 1, |packets| + 1);
      p.time := p.time + p.period;
      forall i: nat ensures LinkAt(head, packets, z, i) { assert old(LinkAt(head, packets, z, i)); }
      forall j: nat ensures CacheLink(cached, j) { assert old(CacheLink(cached, j)); }
      forall i | 1 <= i < |packets| ensures packets[i] != p {
        assert ApartAt(head, packets, z, 1, i + 1);
      }
    }

    /** Signals everything due by t and returns the time of the next advise. */
    method Advise(t: int) returns (next: int, fired: seq<Firing>)
      requires Valid() && Servable(List(), t) && BelowEnd(List(), t)
      modifies this, head`next, packets
      ensures Valid() && nextCookie == old(nextCookie)
      ensures (List(), fired) == Advised(old(List()), t)
      ensures next == if List() == [] then MAX_TIME else List()[0].time
      ensures List() != [] ==> next > t
    {
      fired := [];
      ghost var start, ps := List(), packets;
      OwedEnds(start, t);
      var due;
      due, next := HeadDue(t);
      while due
        invariant Valid() && Servable(List(), t) && BelowEnd(List(), t) && nextCookie == old(nextCookie)
        invariant Among(packets, ps)
        invariant Owed(start, List(), t, fired)
        invariant due <==> List() != [] && List()[0].time <= t
        invariant next == if List() == [] then MAX_TIME else List()[0].time
        decreases Work(List(), t)
      {
        fired := ServeNext(start, t, fired, ps);
        due, next := HeadDue(t);
      }
      OwedNothing(start, List(), t, fired);
    }

    /** The body of the loop in Advise. */
    method ServeNext(ghost start: seq<Entry>, t: int, fired: seq<Firing>, ghost ps: seq<AdvisePacket>)
        returns (after: seq<Firing>)
      requires Valid() && Servable(List(), t) && BelowEnd(List(), t) && List() != [] && List()[0].time <= t
      requires Servable(start, t) && Owed(start, List(), t, fired) && Among(packets, ps)
      modifies this, head`next, ps
      ensures Valid() && nextCookie == old(nextCookie) && Among(packets, ps)
      ensures Servable(List(), t) && BelowEnd(List(), t)
      ensures Owed(start, List(), t, after) && Work(List(), t) < old(Work(List(), t))
    {
      ServedPays(List(), t);
      ServedBelowEnd(List(), t);
      OwedStep(start, List(), t, fired);
      assert forall i :: 0 <= i < |packets| ==> packets[i] in ps;
      var f := ServeHead();
      after := fired + [f];
    }

    /** The guard of the loop in Advise: is the head due and not the sentinel? */
    method HeadDue(t: int) returns (due: bool, next: int)
      requires Valid()
      ensures due <==> List() != [] && List()[0].time <= t
      ensures next == if List() == [] then MAX_TIME else List()[0].time
    {
      NextNode(0);
      next := head.next.time;
      due := t >= next && head.next.next != null;
    }
  }

  ghost predicate Among(qs: seq<AdvisePacket>, ps: seq<AdvisePacket>) {
    forall q :: q in qs ==> q in ps
  }

  ghost function Linked(ps: seq<AdvisePacket>, p: AdvisePacket, k: nat): seq<AdvisePacket>
    requires k <= |ps|
  {
    ps[..k] + [p] + ps[k..]
  }

  lemma LinkedAmong(ps: seq<AdvisePacket>, k: nat)
    requires k < |ps|
    ensures Among(Linked(ps[1..], ps[0], k), ps)
  {
  }

  lemma IsNotBefore(s: seq<Entry>, time: int, k: nat)
    requires k <= |s| && (forall i :: 0 <= i < k ==> s[i].time < time) && (k < |s| ==> s[k].time >= time)
    ensures NotBefore(s, time) == k
  {
  }

  lemma IsAfter(s: seq<Entry>, time: int, k: nat)
    requires k <= |s| && (forall i :: 0 <= i < k ==> s[i].time <= time) && (k < |s| ==> s[k].time > time)
    ensures After(s, time) == k
  {
  }

  lemma IsIndexOf(s: seq<Entry>, c: nat, k: nat)
    requires k <= |s| && (forall i :: 0 <= i < k ==> s[i].cookie != c) && (k < |s| ==> s[k].cookie == c)
    ensures IndexOf(s, c) == k
  {
  }
}
