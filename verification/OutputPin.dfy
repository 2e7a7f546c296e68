// Blocking and unblocking an output pin that streaming threads use
// (ReCapABR/sim_test/echo/baseclasses/amfilter.cpp, CDynamicOutputPin).

/** The block state of a pin as a value, and what each section run under its lock does to it. */
module PinBlocking {
  import opened Wrappers

  datatype BlockState = NotBlocked | Pending | Blocked

  /** caller is the thread that asked for the block, 0 when there is none; handle is the request to notify. */
  datatype Pin = Pin(state: BlockState, users: nat, caller: nat, handle: Option<nat>, unblocked: bool)

  const OPEN := Pin(NotBlocked, 0, 0, None, true)

  datatype Reply = Accepted | AlreadyBlocked | AlreadyBlockedOnThisThread | NoHandle | NothingToDo

  /** BlockOutputPin: the pin afterwards and the request it notifies. */
  function Block(p: Pin): (Pin, Option<nat>) {
    (p.(unblocked := false, state := Blocked, handle := None), p.handle)
  }

  /** AsynchronousBlockOutputPin by a thread, for a request whose handle may fail to be duplicated. */
  function RequestBlock(p: Pin, thread: nat, request: nat, duplicated: bool): (Pin, Option<nat>, Reply) {
    if p.state != NotBlocked then
      (p, None, if p.caller == thread then AlreadyBlockedOnThisThread else AlreadyBlocked)
    else if !duplicated then (p, None, NoHandle)
    else
      var q := p.(state := Pending, caller := thread, handle := Some(request));
      if q.users == 0 then (Block(q).0, Block(q).1, Accepted) else (q, None, Accepted)
  }

  /** UnblockOutputPin: a request still pending is notified of its cancellation. */
  function Unblock(p: Pin): (Pin, Option<nat>, Reply) {
    if p.state == NotBlocked then (p, None, NothingToDo)
    else (p.(unblocked := true, state := NotBlocked, caller := 0, handle := None), p.handle, Accepted)
  }

  /** One pass of the loop in StartUsingOutputPin: whether the thread may use the pin. */
  function TryUse(p: Pin): (Pin, bool) {
    if p.state == Blocked then (p, false) else (p.(users := p.users + 1), true)
  }

  /** StopUsingOutputPin; its caller is counted among the users. */
  function StopUse(p: Pin): (Pin, Option<nat>)
    requires p.users > 0
  {
    var q := p.(users := p.users - 1);
    if q.users == 0 && q.state != NotBlocked then Block(q) else (q, None)
  }

  /** The condition that the debug build asserts around every operation. */
  predicate AssertValid(p: Pin) {
    && (p.handle.None? <==> p.state != Pending)
    && (p.caller == 0 || p.state != NotBlocked)
    && ((p.users != 0 && p.state != Blocked) || p.users == 0)
  }
}

/** All interleavings of streaming and application threads on one pin. */
module PinRuns {
  import opened Wrappers
  import opened PinBlocking

  /**
   * busy threads use the pin, parked ones wait for the unblock event, woken ones saw it and will look again. standing
   * is the thread whose block was asked for and not cancelled since; requests counts such requests, and notified
   * lists them in the order they were signalled.
   */
  datatype System = System(
    pin: Pin, busy: set<nat>, parked: set<nat>, woken: set<nat>, stopping: bool,
    standing: Option<nat>, requests: nat, notified: seq<nat>)

  const START := System(OPEN, {}, {}, {}, false, None, 0, [])

  datatype Action =
    | StartUsing(thread: nat)
    | SeeUnblocked(thread: nat)
    | LookAgain(thread: nat)
    | SeeStop(thread: nat)
    | StopUsing(thread: nat)
    | AskBlock(thread: nat, duplicated: bool)
    | CancelBlock
    | SetStop(on: bool)

  predicate Enabled(y: System, a: Action) {
    match a
    case StartUsing(t) => t !in y.busy && t !in y.parked && t !in y.woken
    case SeeUnblocked(t) => t in y.parked && y.pin.unblocked
    case LookAgain(t) => t in y.woken
    case SeeStop(t) => t in y.parked && y.stopping && !y.pin.unblocked
    case StopUsing(t) => t in y.busy
    case AskBlock(t, _) => t > 0
    case _ => true
  }

  function Signal(log: seq<nat>, r: Option<nat>): seq<nat> {
    match r
    case None => log
    case Some(id) => log + [id]
  }

  function Enter(y: System, t: nat): System {
    var (p, may) := TryUse(y.pin);
    if may then y.(pin := p, busy := y.busy + {t}) else y.(parked := y.parked + {t})
  }

  function Step(y: System, a: Action): System {
    match a
    case StartUsing(t) => Enter(y, t)
    case SeeUnblocked(t) => y.(parked := y.parked - {t}, woken := y.woken + {t})
    case LookAgain(t) => Enter(y.(woken := y.woken - {t}), t)
    case SeeStop(t) => y.(parked := y.parked - {t})
    case StopUsing(t) =>
      if y.pin.users == 0 then y
      else
        var (p, r) := StopUse(y.pin);
        y.(pin := p, busy := y.busy - {t}, notified := Signal(y.notified, r))
    case AskBlock(t, duplicated) =>
      var (p, r, _) := RequestBlock(y.pin, t, y.requests, duplicated);
      var z := y.(pin := p, notified := Signal(y.notified, r));
      if y.standing.None? && duplicated then z.(standing := Some(t), requests := y.requests + 1) else z
    case CancelBlock =>
      var (p, r, _) := Unblock(y.pin);
      y.(pin := p, standing := None, notified := Signal(y.notified, r))
    case SetStop(on) => y.(stopping := on)
  }

  /** Every accepted request but the pending one has been notified, each once. */
  predicate NotifiedOnce(y: System, id: nat) {
    multiset(y.notified)[id] == if id < y.requests && y.pin.handle != Some(id) then 1 else 0
  }

  ghost predicate Inv(y: System) {
    && AssertValid(y.pin)
    && (y.pin.state == Pending ==> y.pin.users > 0)
    && (y.pin.unblocked <==> y.pin.state != Blocked)
    && (y.pin.state == NotBlocked <==> y.standing.None?)
    && y.pin.caller == (if y.standing.Some? then y.standing.value else 0)
    && y.pin.users == |y.busy|
    && (y.pin.handle.Some? ==> y.pin.handle.value < y.requests)
    && (forall id :: NotifiedOnce(y, id))
    && y.busy !! y.parked !! y.woken
  }

  lemma SignalKeeps(y: System, z: System, r: Option<nat>)
    requires (forall id :: NotifiedOnce(y, id)) && z.notified == Signal(y.notified, r)
    requires z.requests == y.requests && (r.None? ==> z.pin.handle == y.pin.handle)
    requires r.Some? ==> r == y.pin.handle && z.pin.handle.None? && r.value < y.requests
    ensures forall id :: NotifiedOnce(z, id)
  {
    forall id ensures NotifiedOnce(z, id) { assert NotifiedOnce(y, id); }
  }

  lemma AskKeeps(y: System, t: nat, duplicated: bool)
    requires Inv(y) && t > 0
    ensures Inv(Step(y, AskBlock(t, duplicated)))
  {
    var z := Step(y, AskBlock(t, duplicated));
    forall id ensures NotifiedOnce(z, id) { assert NotifiedOnce(y, id); }
  }

  lemma EnterKeeps(y: System, t: nat)
    requires Inv(y) && t !in y.busy && t !in y.parked && t !in y.woken
    ensures Inv(Enter(y, t))
  {
    SignalKeeps(y, Enter(y, t), None);
  }

  lemma StopKeeps(y: System, t: nat)
    requires Inv(y) && t in y.busy
    ensures Inv(Step(y, StopUsing(t)))
  {
    assert |y.busy - {t}| == |y.busy| - 1;
    SignalKeeps(y, Step(y, StopUsing(t)), StopUse(y.pin).1);
  }

  lemma CancelKeeps(y: System)
    requires Inv(y)
    ensures Inv(Step(y, CancelBlock))
  {
    SignalKeeps(y, Step(y, CancelBlock), Unblock(y.pin).1);
  }

  /** Moving threads that do not use the pin between parked, woken and gone. */
  lemma MoveKeeps(y: System, parked: set<nat>, woken: set<nat>, stopping: bool)
    requires Inv(y) && parked + woken <= y.parked + y.woken && parked !! woken
    ensures Inv(y.(parked := parked, woken := woken, stopping := stopping))
  {
    SignalKeeps(y, y.(parked := parked, woken := woken, stopping := stopping), None);
  }

  lemma StepKeeps(y: System, a: Action)
    requires Inv(y) && Enabled(y, a)
    ensures Inv(Step(y, a))
  {
    match a
    case StartUsing(t) => EnterKeeps(y, t);
    case SeeUnblocked(t) => MoveKeeps(y, y.parked - {t}, y.woken + {t}, y.stopping);
    case LookAgain(t) =>
      MoveKeeps(y, y.parked, y.woken - {t}, y.stopping);
      EnterKeeps(y.(woken := y.woken - {t}), t);
    case SeeStop(t) => MoveKeeps(y, y.parked - {t}, y.woken, y.stopping);
    case StopUsing(t) => StopKeeps(y, t);
    case AskBlock(t, duplicated) => AskKeeps(y, t, duplicated);
    case CancelBlock => CancelKeeps(y);
    case SetStop(on) => MoveKeeps(y, y.parked, y.woken, on);
  }

  predicate Feasible(y: System, actions: seq<Action>)
    decreases |actions|
  {
    actions == [] || (Enabled(y, actions[0]) && Feasible(Step(y, actions[0]), actions[1..]))
  }

  function Run(y: System, actions: seq<Action>): System
    decreases |actions|
  {
    if actions == [] then y else Run(Step(y, actions[0]), actions[1..])
  }

  lemma {:induction false} RunKeeps(y: System, actions: seq<Action>)
    requires Inv(y) && Feasible(y, actions)
    ensures Inv(Run(y, actions))
    decreases |actions|
  {
    if actions != [] {
      StepKeeps(y, actions[0]);
      RunKeeps(Step(y, actions[0]), actions[1..]);
    }
  }

  lemma StartOk()
    ensures Inv(START)
  {
  }

  /** In every reachable state a blocked pin has no user, a pending block has a user and a request to notify, the
      unblock event is signalled exactly while the pin is not blocked, and the asserted condition holds. */
  lemma BlockStateIsConsistent(actions: seq<Action>)
    requires Feasible(START, actions)
    ensures var y := Run(START, actions); var p := y.pin;
      && AssertValid(p)
      && (p.state == Blocked ==> y.busy == {})
      && (p.state == Pending ==> y.busy != {} && p.handle.Some?)
      && (p.unblocked <==> p.state != Blocked)
      && p.users == |y.busy|
  {
    StartOk();
    RunKeeps(START, actions);
  }

  /**
   * What the two application calls answer in every reachable state. A request is accepted exactly when no block
   * stands and its handle could be duplicated; an unblock exactly when a block stands, pending or done.
   */
  lemma RepliesAreRight(actions: seq<Action>, thread: nat, duplicated: bool)
    requires Feasible(START, actions) && thread > 0
    ensures var y := Run(START, actions);
      && RequestBlock(y.pin, thread, y.requests, duplicated).2
         == (match y.standing
             case Some(t) => if t == thread then AlreadyBlockedOnThisThread else AlreadyBlocked
             case None => if duplicated then Accepted else NoHandle)
      && Unblock(y.pin).2 == if y.standing.Some? then Accepted else NothingToDo
  {
    StartOk();
    RunKeeps(START, actions);
  }

  /** What cancelling does in every reachable state: no block stands, and a request still pending is notified. */
  lemma CancelUnblocks(actions: seq<Action>)
    requires Feasible(START, actions)
    ensures var y := Run(START, actions); var z := Step(y, CancelBlock);
      && z.pin.state == NotBlocked && z.pin.unblocked && z.pin.handle.None? && z.pin.users == |y.busy|
      && z.notified == Signal(y.notified, if y.pin.state == Pending then y.pin.handle else None)
  {
    StartOk();
    RunKeeps(START, actions);
    StepKeeps(Run(START, actions), CancelBlock);
  }

  /** Each accepted block request is notified exactly once, unless it is the one still pending; no other ever is. */
  lemma RequestsAreNotifiedOnce(actions: seq<Action>, id: nat)
    requires Feasible(START, actions)
    ensures var y := Run(START, actions);
      multiset(y.notified)[id] == if id < y.requests && y.pin.handle != Some(id) then 1 else 0
  {
    StartOk();
    RunKeeps(START, actions);
    assert NotifiedOnce(Run(START, actions), id);
  }

  lemma RunFirst(y: System, a: Action, rest: seq<Action>)
    requires Enabled(y, a) && Feasible(Step(y, a), rest)
    ensures Feasible(y, [a] + rest) && Run(y, [a] + rest) == Run(Step(y, a), rest)
  {
    assert ([a] + rest)[1..] == rest;
  }

  /** While the pin is not blocked, every thread waiting to use it can get in with no help from other threads. */
  lemma {:induction false} WaitersCanEnter(y: System) returns (actions: seq<Action>)
    requires Inv(y) && y.pin.state != Blocked
    ensures Waits(actions) && Feasible(y, actions) && AllEntered(y, Run(y, actions))
    decreases Queue(y)
  {
    if y.parked == {} && y.woken == {} {
      actions := [];
    } else {
      var a := OneMoves(y);
      var rest := WaitersCanEnter(Step(y, a));
      actions := [a] + rest;
      RunFirst(y, a, rest);
    }
  }

  /** Moves of waiting threads. */
  predicate Waits(actions: seq<Action>) {
    forall i :: 0 <= i < |actions| ==> actions[i].SeeUnblocked? || actions[i].LookAgain?
  }

  /** From every reachable state, a blocked pin included, one unblock lets all waiting threads in. */
  lemma UnblockLetsAllIn(actions: seq<Action>) returns (moves: seq<Action>)
    requires Feasible(START, actions)
    ensures var y := Run(START, actions); var z := Step(y, CancelBlock);
      Waits(moves) && Feasible(z, moves) && AllEntered(y, Run(z, moves))
  {
    var y := Run(START, actions);
    StartOk();
    RunKeeps(START, actions);
    StepKeeps(y, CancelBlock);
    moves := WaitersCanEnter(Step(y, CancelBlock));
  }

  lemma EnterIs(y: System, t: nat)
    requires Inv(y) && Enabled(y, StartUsing(t))
    ensures Admits(y, Step(y, StartUsing(t)), t)
  {
    var z := Step(y, StartUsing(t));
    JoinsUnion(y.busy, y.parked, y.woken, t);
    assert z.busy == if y.pin.state == Blocked then y.busy else y.busy + {t};
    assert z.parked == if y.pin.state == Blocked then y.parked + {t} else y.parked;
  }

  lemma JoinsUnion(a: set<nat>, b: set<nat>, c: set<nat>, t: nat)
    ensures (a + {t}) + b + c == a + b + c + {t} && a + (b + {t}) + c == a + b + c + {t}
  {
  }

  /** The thread is in at once, or waits, exactly if the pin is blocked; all others stay where they are. */
  predicate Admits(y: System, z: System, t: nat) {
    && z.busy == (if y.pin.state == Blocked then y.busy else y.busy + {t})
    && z.parked == (if y.pin.state == Blocked then y.parked + {t} else y.parked)
    && z.woken == y.woken && Everyone(z) == Everyone(y) + {t}
  }

  /** In every run a thread that wants to use the pin is admitted so. */
  lemma StartingThreadIsAdmitted(actions: seq<Action>, t: nat)
    requires Feasible(START, actions) && Enabled(Run(START, actions), StartUsing(t))
    ensures Admits(Run(START, actions), Step(Run(START, actions), StartUsing(t)), t)
  {
    StartOk();
    RunKeeps(START, actions);
    EnterIs(Run(START, actions), t);
  }

  predicate Stops(actions: seq<Action>) {
    forall i :: 0 <= i < |actions| ==> actions[i].StopUsing?
  }

  /** When a block stands and the users leave, the pin is blocked and no request is left to notify. */
  lemma {:induction false} UsersLeaveToBlock(y: System) returns (actions: seq<Action>)
    requires Inv(y) && y.standing.Some?
    ensures Stops(actions) && Feasible(y, actions)
    ensures var z := Run(y, actions); z.busy == {} && z.pin.state == Blocked && z.pin.handle.None?
    decreases |y.busy|
  {
    if y.busy == {} {
      actions := [];
    } else {
      var t :| t in y.busy;
      var a := StopUsing(t);
      StepKeeps(y, a);
      assert |y.busy - {t}| < |y.busy|;
      var rest := UsersLeaveToBlock(Step(y, a));
      actions := [a] + rest;
      RunFirst(y, a, rest);
    }
  }

  /** Once stopping, every waiting thread can leave, whether the pin is blocked or not. */
  lemma {:induction false} StopFreesWaiters(y: System) returns (actions: seq<Action>)
    requires Inv(y) && y.stopping && y.pin.state == Blocked && y.woken == {}
    ensures Feasible(y, actions) && Run(y, actions) == y.(parked := {})
    decreases |y.parked|
  {
    if y.parked == {} {
      actions := [];
    } else {
      var t :| t in y.parked;
      var a := SeeStop(t);
      StepKeeps(y, a);
      assert |y.parked - {t}| < |y.parked|;
      var rest := StopFreesWaiters(Step(y, a));
      actions := [a] + rest;
      RunFirst(y, a, rest);
    }
  }

  predicate AllEntered(y: System, z: System) {
    z.parked == {} && z.woken == {} && z.busy == Everyone(y)
  }

  function Everyone(y: System): set<nat> {
    y.busy + y.parked + y.woken
  }

  /** How many moves the waiting threads still have to make. */
  function Queue(y: System): nat {
    2 * |y.parked| + |y.woken|
  }

  lemma OneMoves(y: System) returns (a: Action)
    requires Inv(y) && y.pin.state != Blocked && (y.parked != {} || y.woken != {})
    ensures (a.SeeUnblocked? || a.LookAgain?) && Enabled(y, a) && Inv(Step(y, a)) && Step(y, a).pin.state != Blocked
    ensures Queue(Step(y, a)) < Queue(y) && Everyone(Step(y, a)) == Everyone(y)
  {
    if t :| t in y.parked {
      a := SeeUnblocked(t);
      ParkedMoves(y, t);
    } else {
      var t :| t in y.woken;
      a := LookAgain(t);
      WokenMoves(y, t);
    }
    StepKeeps(y, a);
  }

  lemma ParkedMoves(y: System, t: nat)
    requires t in y.parked && t !in y.woken
    ensures var z := Step(y, SeeUnblocked(t)); Queue(z) < Queue(y) && Everyone(z) == Everyone(y)
  {
  }

  lemma WokenMoves(y: System, t: nat)
    requires t in y.woken && y.pin.state != Blocked
    ensures var z := Step(y, LookAgain(t)); Queue(z) < Queue(y) && Everyone(z) == Everyone(y)
  {
  }
}

/** The pin object. */
module OutputPins {
  import opened Wrappers
  import opened PinBlocking

  class DynamicOutputPin {
    var blockState: BlockState
    var numUsers: nat
    var callerThread: nat
    var notifyHandle: Option<nat>
    var unblockEvent: bool
    /** The handles signalled so far, in order. */
    ghost var signalled: seq<nat>

    ghost function Abs(): Pin
      reads this
    {
      Pin(blockState, numUsers, callerThread, notifyHandle, unblockEvent)
    }

    constructor ()
      ensures Abs() == OPEN && signalled == []
    {
      blockState, numUsers, callerThread, notifyHandle, unblockEvent := NotBlocked, 0, 0, None, true;
      signalled := [];
    }

    method BlockNow()
      requires AssertValid(Abs()) && blockState == Pending && numUsers == 0
      modifies this
      ensures Abs() == Block(old(Abs())).0
      ensures signalled == old(signalled) + [old(notifyHandle).value]
      ensures AssertValid(Abs())
    {
      unblockEvent := false;
      signalled := signalled + [notifyHandle.value];
      blockState := Blocked;
      notifyHandle := None;
    }

    method RequestBlock(thread: nat, request: nat, duplicated: bool) returns (reply: Reply)
      requires AssertValid(Abs()) && thread > 0
      modifies this
      ensures var (p, r, answer) := PinBlocking.RequestBlock(old(Abs()), thread, request, duplicated);
        Abs() == p && reply == answer &&
        signalled == old(signalled) + match r case None => [] case Some(id) => [id]
      ensures AssertValid(Abs())
    {
      if blockState != NotBlocked {
        if callerThread == thread {
          return AlreadyBlockedOnThisThread;
        } else {
          return AlreadyBlocked;
        }
      }
      if !duplicated {
        return NoHandle;
      }
      notifyHandle := Some(request);
      blockState := Pending;
      callerThread := thread;
      if !(numUsers > 0) {
        BlockNow();
      }
      reply := Accepted;
    }

    method Unblock() returns (reply: Reply)
      requires AssertValid(Abs())
      modifies this
      ensures var (p, r, answer) := PinBlocking.Unblock(old(Abs()));
        Abs() == p && reply == answer &&
        signalled == old(signalled) + match r case None => [] case Some(id) => [id]
      ensures AssertValid(Abs())
    {
      if blockState == NotBlocked {
        return NothingToDo;
      }
      unblockEvent := true;
      if notifyHandle.Some? {
        signalled := signalled + [notifyHandle.value];
      }
      blockState := NotBlocked;
      callerThread := 0;
      notifyHandle := None;
      reply := Accepted;
    }

    method TryStartUsing() returns (started: bool)
      requires AssertValid(Abs())
      modifies this`numUsers
      ensures (Abs(), started) == TryUse(old(Abs())) && AssertValid(Abs())
    {
      if blockState == Blocked {
        return false;
      }
      numUsers := numUsers + 1;
      started := true;
    }

    method StopUsing()
      requires AssertValid(Abs()) && numUsers > 0
      modifies this
      ensures var (p, r) := StopUse(old(Abs()));
        Abs() == p && signalled == old(signalled) + match r case None => [] case Some(id) => [id]
      ensures AssertValid(Abs())
    {
      numUsers := numUsers - 1;
      if numUsers == 0 && blockState != NotBlocked {
        BlockNow();
      }
    }
  }
}
