// The buffer allocator with lazily signalled waits
// (ReCapABR/sim_test/echo/baseclasses/amfilter.cpp and amfilter.h, CBaseAllocator and CMemAllocator).

/** One allocator as a value, and what each section run under its lock does to it. */
module SampleAllocation {

  /** The largest count of the semaphore. */
  const SEM_MAX: nat := 0x7FFF_FFFF

  /** free lists the unused samples, head first; refs counts the references the allocator holds on itself. */
  datatype Alloc<T> = Alloc(
    free: seq<T>, waiting: int, total: nat, count: int, sized: bool, changed: bool,
    committed: bool, decommitting: bool, sem: nat, refs: int)

  function Fresh<T>(): Alloc<T> {
    Alloc([], 0, 0, 0, false, false, false, false, 0, 0)
  }

  /** The number of announced waits as the 32-bit field that counts them shows it. */
  function Wrapped(n: int): int {
    if -0x8000_0000 <= n <= SEM_MAX then n else (n + 0x8000_0000) % 0x1_0000_0000 - 0x8000_0000
  }

  lemma WrappedNext(n: int)
    ensures Wrapped(Wrapped(n) + 1) == Wrapped(n + 1)
  {
  }

  /** Releasing a semaphore by less than one, or beyond its maximum, fails and leaves the count alone. */
  function Released(sem: nat, n: int): nat {
    if 0 < n && sem + n <= SEM_MAX then sem + n else sem
  }

  /** NotifySample. */
  function Notify<T>(a: Alloc<T>): Alloc<T> {
    if a.waiting != 0 then a.(sem := Released(a.sem, a.waiting), waiting := 0) else a
  }

  datatype Got<T> = NotCommitted | Sample(s: T) | Empty

  /** The locked part of GetBuffer. */
  function TryGet<T>(a: Alloc<T>): (Alloc<T>, Got<T>) {
    if !a.committed then (a, NotCommitted)
    else if a.free != [] then (a.(free := a.free[1..]), Sample(a.free[0]))
    else (a.(waiting := Wrapped(a.waiting + 1)), Empty)
  }

  /** ReleaseBuffer, including the release of the self-reference when a pending decommit completes. */
  function Release<T>(a: Alloc<T>, s: T): Alloc<T> {
    var b := Notify(a.(free := [s] + a.free));
    if b.decommitting && |b.free| == b.total then b.(decommitting := false, refs := b.refs - 1) else b
  }

  /** Alloc of CMemAllocator: memory tells whether the buffer block could be had, created lists the samples made. */
  function Allocate<T>(a: Alloc<T>, memory: bool, created: seq<T>): (Alloc<T>, bool) {
    if a.count <= 0 || !a.sized then (a, false)
    else if !a.changed then (a, true)
    else if !memory then (a.(free := [], total := 0), false)
    else
      var b := a.(free := created, total := |created|);
      if |created| < a.count then (b, false) else (b.(changed := false), true)
  }

  lemma AllocateWhile<T>(a: Alloc<T>, committed: bool, memory: bool, created: seq<T>)
    ensures var (b, ok) := Allocate(a, memory, created);
      b.committed == a.committed
      && Allocate(a.(committed := committed), memory, created) == (b.(committed := committed), ok)
  {
  }

  /** Commit, and whether it succeeds. */
  function Commit<T>(a: Alloc<T>, memory: bool, created: seq<T>): (Alloc<T>, bool) {
    if a.committed then (a, true)
    else if a.decommitting then (a.(committed := true, decommitting := false), true)
    else
      var (b, ok) := Allocate(a, memory, created);
      if ok then (b.(committed := true, refs := b.refs + 1), true) else (b, false)
  }

  function Decommit<T>(a: Alloc<T>): Alloc<T> {
    if !a.committed && !a.decommitting then a
    else
      var b := a.(committed := false);
      if |b.free| < b.total then Notify(b.(decommitting := true))
      else
        var c := Notify(b.(decommitting := false));
        c.(refs := c.refs - 1)
  }

  datatype Verdict = Done | AlreadyCommitted | BuffersOutstanding

  /** SetProperties with valid arguments; it is refused while committed or while samples are out. */
  function SetProperties<T>(a: Alloc<T>, count: int, sized: bool): (Alloc<T>, Verdict) {
    if a.committed then (a, AlreadyCommitted)
    else if |a.free| < a.total then (a, BuffersOutstanding)
    else (a.(count := count, sized := sized, changed := true), Done)
  }
}

/** All interleavings of threads that use one allocator. */
module SampleAllocatorRuns {
  import opened SampleAllocation

  /**
   * waiters are the threads between announcing a wait and being let through; timeouts counts the calls that
   * announced a wait but were told not to wait; out holds the samples handed to users; announced counts the waits
   * announced since the semaphore was last released, and lost those that such a release did not turn into credits;
   * asked is the number of samples last asked for while that was allowed, with a size or without.
   */
  datatype System<T> = System(
    alloc: Alloc<T>, waiters: set<nat>, timeouts: nat, out: set<T>, announced: nat, lost: int,
    asked: int, askedSized: bool)

  datatype Action<T> =
    | GetBuffer(thread: nat, noWait: bool)
    | PassSemaphore(thread: nat)
    | ReleaseBuffer(sample: T)
    | CommitAll(memory: bool, created: seq<T>)
    | DecommitAll
    | Configure(count: int, sized: bool)

  function Start<T>(): System<T> {
    System(Fresh(), {}, 0, {}, 0, 0, 0, false)
  }

  ghost predicate Distinct<T>(s: seq<T>) {
    forall i, j :: 0 <= i < j < |s| ==> s[i] != s[j]
  }

  /** A waiting thread only waits; a user only releases what it holds; new samples are new, and no more than asked. */
  ghost predicate Enabled<T>(y: System<T>, a: Action<T>) {
    match a
    case GetBuffer(t, _) => t !in y.waiters
    case PassSemaphore(t) => t in y.waiters && y.alloc.sem > 0
    case ReleaseBuffer(s) => s in y.out
    case CommitAll(memory, created) =>
      Distinct(created) && (forall s :: s in created ==> s !in y.out) && (created != [] ==> |created| <= y.asked)
    case _ => true
  }

  /** A section that released the semaphore: what it did not credit is lost. */
  function Told<T>(y: System<T>, b: Alloc<T>): System<T> {
    y.(alloc := b, announced := 0, lost := y.lost + y.announced - (b.sem - y.alloc.sem))
  }

  function Step<T>(y: System<T>, a: Action<T>): System<T> {
    match a
    case GetBuffer(t, noWait) =>
      var (b, got) := TryGet(y.alloc);
      (match got
       case NotCommitted => y
       case Sample(s) => y.(alloc := b, out := y.out + {s})
       case Empty =>
         if noWait then y.(alloc := b, announced := y.announced + 1, timeouts := y.timeouts + 1)
         else y.(alloc := b, announced := y.announced + 1, waiters := y.waiters + {t}))
    case PassSemaphore(t) =>
      if y.alloc.sem == 0 then y
      else y.(alloc := y.alloc.(sem := y.alloc.sem - 1), waiters := y.waiters - {t})
    case ReleaseBuffer(s) => Told(y, Release(y.alloc, s)).(out := y.out - {s})
    case CommitAll(memory, created) => y.(alloc := Commit(y.alloc, memory, created).0)
    case DecommitAll => Told(y, Decommit(y.alloc))
    case Configure(count, sized) =>
      var z := y.(alloc := SetProperties(y.alloc, count, sized).0);
      if y.alloc.committed || y.out != {} then z else z.(asked := count, askedSized := sized)
  }

  /** Samples are either free or out, each once, and total counts them all. */
  ghost predicate SamplesOk<T>(y: System<T>) {
    && Distinct(y.alloc.free)
    && (forall s :: s in y.alloc.free ==> s !in y.out)
    && y.alloc.total == |y.alloc.free| + |y.out|
  }

  /** Announced, credited and lost waits together are those of the waiters and of the calls that did not wait. */
  predicate WaitsOk<T>(y: System<T>) {
    && (y.alloc.free != [] || !y.alloc.committed ==> y.announced == 0)
    && y.alloc.waiting == Wrapped(y.announced)
    && y.announced + y.alloc.sem + y.lost == |y.waiters| + y.timeouts
    && y.alloc.sem <= SEM_MAX && y.lost >= 0
  }

  predicate LifeOk<T>(y: System<T>) {
    && !(y.alloc.committed && y.alloc.decommitting)
    && (y.alloc.decommitting ==> y.out != {})
    && (!y.alloc.committed && !y.alloc.decommitting ==> y.out == {})
    && y.alloc.refs == if y.alloc.committed || y.alloc.decommitting then 1 else 0
  }

  /** The count is what was asked for, and what is allocated is that many once the request was met. */
  predicate CountOk<T>(y: System<T>) {
    && y.alloc.count == y.asked && y.alloc.sized == y.askedSized
    && (!y.alloc.changed ==> y.alloc.total == y.asked)
    && (y.alloc.committed || y.alloc.decommitting ==> !y.alloc.changed && y.asked > 0 && y.askedSized)
  }

  ghost predicate Inv<T>(y: System<T>) {
    SamplesOk(y) && WaitsOk(y) && LifeOk(y) && CountOk(y)
  }

  lemma TakeKeeps<T>(y: System<T>, t: nat, noWait: bool)
    requires Inv(y) && y.alloc.committed && y.alloc.free != []
    ensures Inv(Step(y, GetBuffer(t, noWait)))
  {
  }

  lemma GetKeeps<T>(y: System<T>, t: nat, noWait: bool)
    requires Inv(y) && Enabled(y, GetBuffer(t, noWait))
    ensures Inv(Step(y, GetBuffer(t, noWait)))
  {
    if y.alloc.committed {
      if y.alloc.free == [] {
        WrappedNext(y.announced);
      } else {
        TakeKeeps(y, t, noWait);
      }
    }
  }

  lemma ReleaseKeeps<T>(y: System<T>, s: T)
    requires Inv(y) && s in y.out
    ensures Inv(Step(y, ReleaseBuffer(s)))
  {
  }

  lemma CommitKeeps<T>(y: System<T>, memory: bool, created: seq<T>)
    requires Inv(y) && Enabled(y, CommitAll(memory, created))
    ensures Inv(Step(y, CommitAll(memory, created)))
  {
  }

  lemma StepKeeps<T>(y: System<T>, a: Action<T>)
    requires Inv(y) && Enabled(y, a)
    ensures Inv(Step(y, a))
  {
    match a
    case GetBuffer(t, noWait) => GetKeeps(y, t, noWait);
    case PassSemaphore(t) =>
    case ReleaseBuffer(s) => ReleaseKeeps(y, s);
    case CommitAll(memory, created) => CommitKeeps(y, memory, created);
    case DecommitAll =>
    case Configure(count, sized) =>
  }

  ghost predicate Feasible<T>(y: System<T>, actions: seq<Action<T>>)
    decreases |actions|
  {
    actions == [] || (Enabled(y, actions[0]) && Feasible(Step(y, actions[0]), actions[1..]))
  }

  function Run<T>(y: System<T>, actions: seq<Action<T>>): System<T>
    decreases |actions|
  {
    if actions == [] then y else Run(Step(y, actions[0]), actions[1..])
  }

  lemma {:induction false} RunKeeps<T>(y: System<T>, actions: seq<Action<T>>)
    requires Inv(y) && Feasible(y, actions)
    ensures Inv(Run(y, actions))
    decreases |actions|
  {
    if actions != [] {
      StepKeeps(y, actions[0]);
      RunKeeps(Step(y, actions[0]), actions[1..]);
    }
  }

  /**
   * Announced waits, credits and lost waits always add up to the waiters and the calls that timed out. So, unless its
   * field has wrapped, the documented equation holds exactly when as many calls timed out as waits were lost.
   */
  lemma WaitEquation<T>(actions: seq<Action<T>>)
    requires Feasible(Start<T>(), actions)
    ensures var y := Run(Start<T>(), actions);
      && y.announced + y.alloc.sem + y.lost == |y.waiters| + y.timeouts
      && (y.announced <= SEM_MAX ==> (y.alloc.waiting + y.alloc.sem == |y.waiters| <==> y.timeouts == y.lost))
  {
    RunKeeps(Start<T>(), actions);
  }

  /** The action releases the semaphore by more than it can still count. */
  predicate Overflows<T>(y: System<T>, a: Action<T>) {
    (a.ReleaseBuffer? || a.DecommitAll?) && y.announced + y.alloc.sem > SEM_MAX
  }

  predicate NeverOverflows<T>(y: System<T>, actions: seq<Action<T>>)
    decreases |actions|
  {
    actions == [] || (!Overflows(y, actions[0]) && NeverOverflows(Step(y, actions[0]), actions[1..]))
  }

  /** Waits are lost by the actions that overflow, and by no other. */
  lemma StepLoses<T>(y: System<T>, a: Action<T>)
    requires Inv(y) && Enabled(y, a)
    ensures Step(y, a).lost >= y.lost
    ensures Step(y, a).lost > y.lost <==> Overflows(y, a)
  {
  }

  lemma {:induction false} RunLoses<T>(y: System<T>, actions: seq<Action<T>>)
    requires Inv(y) && Feasible(y, actions)
    ensures Run(y, actions).lost >= y.lost
    ensures Run(y, actions).lost == y.lost <==> NeverOverflows(y, actions)
    decreases |actions|
  {
    if actions != [] {
      StepLoses(y, actions[0]);
      StepKeeps(y, actions[0]);
      RunLoses(Step(y, actions[0]), actions[1..]);
    }
  }

  /** A credit for every waiter. */
  predicate AllCredited<T>(y: System<T>) {
    y.alloc.sem >= |y.waiters|
  }

  /**
   * While a sample is free, or after a decommit, the semaphore holds a credit for every waiter exactly when no more
   * waits were lost than calls timed out. None is lost exactly in the runs in which no release overflows.
   */
  lemma NoWakeupIsLost<T>(actions: seq<Action<T>>)
    requires Feasible(Start<T>(), actions)
    ensures var y := Run(Start<T>(), actions);
      && (y.alloc.free != [] || !y.alloc.committed ==> (AllCredited(y) <==> y.lost <= y.timeouts))
      && (y.lost == 0 <==> NeverOverflows(Start<T>(), actions))
  {
    RunKeeps(Start<T>(), actions);
    RunLoses(Start<T>(), actions);
  }

  /** The self-reference is held exactly while committed or finishing a decommit, which has samples out. */
  lemma SelfReference<T>(actions: seq<Action<T>>)
    requires Feasible(Start<T>(), actions)
    ensures var a := Run(Start<T>(), actions).alloc;
      && a.refs == (if a.committed || a.decommitting then 1 else 0)
      && (a.decommitting ==> !a.committed && |a.free| < a.total)
      && (!a.committed && !a.decommitting ==> |a.free| == a.total)
  {
    RunKeeps(Start<T>(), actions);
  }

  /** In every run a committed allocator owns as many samples, free or out, as were last asked for. */
  lemma CommittedOwnsWhatWasAsked<T>(actions: seq<Action<T>>)
    requires Feasible(Start<T>(), actions)
    ensures var y := Run(Start<T>(), actions);
      y.alloc.committed ==> y.asked > 0 && y.askedSized && |y.alloc.free| + |y.out| == y.alloc.total == y.asked
  {
    RunKeeps(Start<T>(), actions);
  }

  /**
   * What the calls answer in every run. A commit succeeds exactly when the allocator is committed, is finishing a
   * decommit, or can be given all the samples that were asked for: those of the last commit, if nothing else was asked
   * for since, or new ones. New properties are taken exactly while it is not committed and no sample is out.
   */
  lemma AnswersAreRight<T>(actions: seq<Action<T>>, memory: bool, created: seq<T>, count: int, sized: bool)
    requires Feasible(Start<T>(), actions) && Enabled(Run(Start<T>(), actions), CommitAll(memory, created))
    ensures var y := Run(Start<T>(), actions); var a := y.alloc;
      && (Commit(a, memory, created).1 <==>
            a.committed || a.decommitting
            || (y.asked > 0 && y.askedSized && (!a.changed || (memory && |created| == y.asked))))
      && (Step(y, CommitAll(memory, created)).alloc.committed <==> Commit(a, memory, created).1)
      && SetProperties(a, count, sized).1
         == if a.committed then AlreadyCommitted else if y.out != {} then BuffersOutstanding else Done
  {
    RunKeeps(Start<T>(), actions);
  }

  /** A sample handed out was free, and is not handed out again before it is released. */
  lemma SamplesAreExclusive<T>(actions: seq<Action<T>>, t: nat, noWait: bool)
    requires Feasible(Start<T>(), actions) && Enabled(Run(Start<T>(), actions), GetBuffer(t, noWait))
    ensures var y := Run(Start<T>(), actions); var got := TryGet(y.alloc).1;
      && (got.Sample? ==> got.s !in y.out && got.s in y.alloc.free)
      && y.alloc.total == |y.alloc.free| + |y.out|
  {
    RunKeeps(Start<T>(), actions);
  }

  // ---- a run that loses a wakeup ----

  /** Calls that are told not to wait, with no sample free. */
  function Polls<T>(n: nat): seq<Action<T>> {
    if n == 0 then [] else [GetBuffer(0, true)] + Polls(n - 1)
  }

  /** Committed with no sample free and nobody waiting. */
  predicate Dry<T>(y: System<T>) {
    y.alloc.committed && y.alloc.free == [] && y.waiters == {}
  }

  lemma {:induction false} PollsRun<T>(y: System<T>, n: nat)
    requires Dry(y) && y.alloc.waiting == Wrapped(y.announced)
    ensures Feasible(y, Polls(n))
    ensures Run(y, Polls(n)) == y.(alloc := y.alloc.(waiting := Wrapped(y.announced + n)),
                                   announced := y.announced + n, timeouts := y.timeouts + n)
    decreases n
  {
    if n > 0 {
      assert Polls<T>(n)[1..] == Polls<T>(n - 1);
      WrappedNext(y.announced);
      PollsRun(Step(y, Polls(n)[0]), n - 1);
    }
  }

  lemma {:induction false} Join<T>(y: System<T>, p: seq<Action<T>>, q: seq<Action<T>>)
    ensures Run(y, p + q) == Run(Run(y, p), q)
    ensures Feasible(y, p + q) <==> Feasible(y, p) && Feasible(Run(y, p), q)
    decreases |p|
  {
    if p == [] {
      assert p + q == q;
    } else {
      assert (p + q)[1..] == p[1..] + q;
      Join(Step(y, p[0]), p[1..], q);
    }
  }

  lemma RunFirst<T>(y: System<T>, a: Action<T>, rest: seq<Action<T>>)
    ensures Run(y, [a] + rest) == Run(Step(y, a), rest)
    ensures Feasible(y, [a] + rest) <==> Enabled(y, a) && Feasible(Step(y, a), rest)
  {
    assert ([a] + rest)[1..] == rest;
  }

  /** One sample is allocated and taken. */
  function TakeOnly<T>(x: T): seq<Action<T>> {
    [Configure(1, true)] + ([CommitAll(true, [x])] + ([GetBuffer(0, true)] + []))
  }

  lemma TakesOnly<T>(x: T)
    ensures Feasible(Start<T>(), TakeOnly(x))
    ensures var y := Run(Start<T>(), TakeOnly(x));
      Dry(y) && y.out == {x} && y.announced == y.alloc.waiting == y.alloc.sem == y.lost == y.timeouts == 0
      && !y.alloc.decommitting
  {
    var s0 := Start<T>();
    var s1 := Step(s0, Configure(1, true));
    var s2 := Step(s1, CommitAll(true, [x]));
    RunFirst(s0, Configure(1, true), [CommitAll(true, [x])] + ([GetBuffer(0, true)] + []));
    RunFirst(s1, CommitAll(true, [x]), [GetBuffer(0, true)] + []);
    RunFirst(s2, GetBuffer(0, true), []);
  }

  function WaitAndRelease<T>(x: T): seq<Action<T>> {
    [GetBuffer(1, false)] + ([ReleaseBuffer(x)] + [])
  }

  lemma WaitsAndReleases<T>(y: System<T>, x: T)
    requires Dry(y) && x in y.out && y.alloc.waiting == Wrapped(y.announced) && y.alloc.sem == 0
    requires !y.alloc.decommitting
    ensures Feasible(y, WaitAndRelease(x))
    ensures var z := Run(y, WaitAndRelease(x));
      && z.waiters == {1} && z.alloc.free == [x] && z.alloc.committed
      && z.alloc.sem == Released(0, Wrapped(y.announced + 1))
  {
    var w := Step(y, GetBuffer(1, false));
    RunFirst(y, GetBuffer(1, false), [ReleaseBuffer(x)] + []);
    RunFirst(w, ReleaseBuffer(x), []);
    WrappedNext(y.announced);
  }

  /** Polling n times, then waiting, then releasing the only sample. */
  function PollAndWait<T>(x: T, n: nat): seq<Action<T>> {
    TakeOnly(x) + (Polls(n) + WaitAndRelease(x))
  }

  /**
   * The waiter is left without a credit, beside a free sample, exactly when the field that counts the announced
   * waits has wrapped to 0 or below. The semaphore's largest count is the least number of polls that does this.
   */
  lemma PollingLosesWakeup<T>(x: T, n: nat)
    ensures Feasible(Start<T>(), PollAndWait(x, n))
    ensures var y := Run(Start<T>(), PollAndWait(x, n));
      && y.waiters == {1} && y.alloc.free == [x] && y.alloc.committed
      && (AllCredited(y) <==> Wrapped(n + 1) > 0)
      && (n < SEM_MAX ==> AllCredited(y)) && (n == SEM_MAX ==> !AllCredited(y))
  {
    TakesOnly(x);
    var y := Run(Start<T>(), TakeOnly(x));
    PollsRun(y, n);
    Join(Start<T>(), TakeOnly(x), Polls(n) + WaitAndRelease(x));
    Join(y, Polls(n), WaitAndRelease(x));
    WaitsAndReleases(Run(y, Polls(n)), x);
  }

  // ---- letting the waiters through ----

  predicate Passes<T>(actions: seq<Action<T>>) {
    forall i :: 0 <= i < |actions| ==> actions[i].PassSemaphore?
  }

  /** All waiters can be let through, one after the other, with no help from other threads. */
  ghost predicate CanLeave<T(!new)>(y: System<T>) {
    exists actions :: Passes(actions) && Feasible(y, actions) && Run(y, actions).waiters == {}
  }

  lemma {:induction false} CreditsLetThrough<T>(y: System<T>) returns (actions: seq<Action<T>>)
    requires AllCredited(y)
    ensures Passes(actions) && Feasible(y, actions) && Run(y, actions).waiters == {}
    decreases |y.waiters|
  {
    if y.waiters == {} {
      actions := [];
    } else {
      var t :| t in y.waiters;
      var a: Action<T> := PassSemaphore(t);
      var rest := CreditsLetThrough(Step(y, a));
      actions := [a] + rest;
      RunFirst(y, a, rest);
    }
  }

  lemma {:induction false} PassingSpends<T>(y: System<T>, actions: seq<Action<T>>)
    requires Passes(actions) && Feasible(y, actions)
    ensures |Run(y, actions).waiters| >= |y.waiters| - y.alloc.sem
    decreases |actions|
  {
    if actions != [] {
      PassingSpends(Step(y, actions[0]), actions[1..]);
    }
  }

  /** After a decommit the waiters can all leave, in any run, exactly when no more waits were lost than timed out. */
  lemma WaitersCanLeaveIff<T(!new)>(actions: seq<Action<T>>)
    requires Feasible(Start<T>(), actions) && !Run(Start<T>(), actions).alloc.committed
    ensures var y := Run(Start<T>(), actions); CanLeave(y) <==> y.lost <= y.timeouts
  {
    var y := Run(Start<T>(), actions);
    NoWakeupIsLost(actions);
    if AllCredited(y) {
      var _ := CreditsLetThrough(y);
    } else {
      forall passes: seq<Action<T>> | Passes(passes) && Feasible(y, passes) ensures Run(y, passes).waiters != {} {
        PassingSpends(y, passes);
      }
    }
  }
}

/** The allocator object: its free list is linked through the samples themselves. */
module SampleAllocators {
  import opened SampleAllocation

  class MediaSample {
    var next: MediaSample?

    constructor ()
      ensures next == null
    {
      next := null;
    }
  }

  function At(items: seq<MediaSample>, i: nat): MediaSample? {
    if i < |items| then items[i] else null
  }

  ghost predicate IsList(head: MediaSample?, items: seq<MediaSample>)
    reads items
  {
    && head == At(items, 0)
    && (forall i :: 0 <= i < |items| ==> items[i].next == At(items, i + 1))
    && (forall i, j :: 0 <= i < j < |items| ==> items[i] != items[j])
  }

  class BaseAllocator {
    var list: MediaSample?
    var onList: nat
    ghost var items: seq<MediaSample>
    var waiting: int
    var total: nat
    var count: int
    var sized: bool
    var changed: bool
    var committed: bool
    var decommitting: bool
    var sem: nat
    var refs: int

    ghost predicate Valid()
      reads this, items
    {
      onList == |items| && IsList(list, items)
    }

    ghost function Abs(): Alloc<MediaSample>
      reads this
    {
      Alloc(items, waiting, total, count, sized, changed, committed, decommitting, sem, refs)
    }

    constructor ()
      ensures Valid() && Abs() == Fresh()
    {
      list, onList, items := null, 0, [];
      waiting, total, count, sized, changed := 0, 0, 0, false, false;
      committed, decommitting, sem, refs := false, false, 0, 0;
    }

    /** CSampleList::Add. */
    method Add(s: MediaSample)
      requires Valid() && s !in items
      modifies this`list, this`onList, this`items, s`next
      ensures Valid() && items == [s] + old(items)
    {
      s.next := list;
      list := s;
      onList := onList + 1;
      items := [s] + items;
      assert forall i :: 1 <= i <= |items| ==> At(items, i) == At(items[1..], i - 1);
    }

    /** CSampleList::RemoveHead. */
    method RemoveHead() returns (s: MediaSample?)
      requires Valid()
      modifies this`list, this`onList, this`items
      ensures Valid()
      ensures old(items) == [] ==> s == null && items == []
      ensures old(items) != [] ==> s == old(items)[0] && items == old(items)[1..]
    {
      s := list;
      if s != null {
        list := list.next;
        onList := onList - 1;
        items := items[1..];
      }
    }

    method NotifySample()
      requires Valid()
      modifies this`waiting, this`sem
      ensures Valid() && Abs() == Notify(old(Abs()))
    {
      if waiting != 0 {
        sem := Released(sem, waiting);
        waiting := 0;
      }
    }

    /** The locked part of GetBuffer. */
    method GetLocked() returns (got: Got<MediaSample>)
      requires Valid()
      modifies this`list, this`onList, this`items, this`waiting
      ensures Valid() && (Abs(), got) == TryGet(old(Abs()))
    {
      if !committed {
        return NotCommitted;
      }
      var s := RemoveHead();
      if s == null {
        waiting := Wrapped(waiting + 1);
        got := Empty;
      } else {
        got := Sample(s);
      }
    }

    /** Puts a sample on the free list and wakes the waiters. */
    method PutBack(s: MediaSample)
      requires Valid() && s !in items
      modifies this`list, this`onList, this`items, this`waiting, this`sem, s`next
      ensures Valid() && Abs() == Notify(old(Abs()).(free := [s] + old(Abs()).free))
    {
      Add(s);
      if waiting != 0 {
        NotifySample();
      }
    }

    method ReleaseBuffer(s: MediaSample)
      requires Valid() && s !in items
      modifies this, s`next
      ensures Valid() && Abs() == Release(old(Abs()), s)
    {
      var release := false;
      PutBack(s);
      if decommitting && onList == total {
        decommitting := false;
        release := true;
      }
      if release {
        refs := refs - 1;
      }
    }

    /** The loop of CMemAllocator::Alloc that makes the samples; it stops early when memory runs out. */
    method MakeSamples(limit: nat) returns (ghost created: seq<MediaSample>)
      requires Valid() && items == [] && total == 0
      modifies this`list, this`onList, this`items, this`total
      ensures Valid() && items == created && total == |created| && (count >= 0 ==> |created| <= count)
      ensures count >= 0 ==> |created| == if limit < count then limit else count
      ensures forall s :: s in created ==> fresh(s)
    {
      while total < count && total < limit
        invariant Valid() && total == |items| && (count >= 0 ==> total <= count && total <= limit)
        invariant forall s :: s in items ==> fresh(s)
      {
        var s := new MediaSample();
        Add(s);
        total := total + 1;
      }
      created := items;
    }

    method AllocSamples(memory: bool, limit: nat) returns (ok: bool, ghost created: seq<MediaSample>)
      requires Valid()
      modifies this`list, this`onList, this`items, this`total, this`changed
      ensures Valid() && (Abs(), ok) == Allocate(old(Abs()), memory, created)
      ensures forall s :: s in created ==> fresh(s)
    {
      created := [];
      if count <= 0 || !sized {
        return false, [];
      }
      if !changed {
        return true, [];
      }
      while list != null
        modifies this`list, this`onList, this`items
        invariant Valid()
        decreases onList
      {
        var dropped := RemoveHead();
      }
      total := 0;
      if !memory {
        return false, [];
      }
      created := MakeSamples(limit);
      if total < count {
        return false, created;
      }
      changed := false;
      ok := true;
    }

    method Commit(memory: bool, limit: nat) returns (ok: bool, ghost created: seq<MediaSample>)
      requires Valid()
      modifies this
      ensures Valid() && (Abs(), ok) == SampleAllocation.Commit(old(Abs()), memory, created)
      ensures forall s :: s in created ==> fresh(s)
    {
      created := [];
      if committed {
        return true, [];
      }
      committed := true;
      if decommitting {
        decommitting := false;
        return true, [];
      }
      ok, created := Populate(memory, limit);
      AllocateWhile(old(Abs()), true, memory, created);
    }

    /** The end of a commit that calls off no decommit: it stands only if the samples could be allocated. */
    method Populate(memory: bool, limit: nat) returns (ok: bool, ghost created: seq<MediaSample>)
      requires Valid()
      modifies this
      ensures Valid() && forall s :: s in created ==> fresh(s)
      ensures var (b, done) := Allocate(old(Abs()), memory, created);
        ok == done && Abs() == if ok then b.(refs := b.refs + 1) else b.(committed := false)
    {
      ok, created := AllocSamples(memory, limit);
      if !ok {
        committed := false;
        return;
      }
      refs := refs + 1;
    }

    method Decommit()
      requires Valid()
      modifies this
      ensures Valid() && Abs() == SampleAllocation.Decommit(old(Abs()))
    {
      var release := false;
      if !committed {
        if !decommitting {
          return;
        }
      }
      committed := false;
      if onList < total {
        decommitting := true;
      } else {
        decommitting := false;
        release := true;
      }
      NotifySample();
      if release {
        refs := refs - 1;
      }
    }

    method SetProperties(newCount: int, newSized: bool) returns (verdict: Verdict)
      requires Valid()
      modifies this`count, this`sized, this`changed
      ensures Valid() && (Abs(), verdict) == SampleAllocation.SetProperties(old(Abs()), newCount, newSized)
    {
      if committed {
        return AlreadyCommitted;
      }
      if onList < total {
        return BuffersOutstanding;
      }
      count, sized, changed := newCount, newSized, true;
      verdict := Done;
    }
  }
}
