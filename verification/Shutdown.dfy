/**
 The shutdown notifier as a state machine: one step per atomic operation, any number of callers,
 every interleaving. Two facts about the environment are taken from its documentation: atomic
 operations are totally ordered, and `notify_waiters` wakes exactly the `Notified` futures created
 before it. A `Notified` is therefore the number of notifications issued when it was created.
 */
module Shutdown {

  type Id = nat

  // A call to `Notifier::shutdown`, or the notifier's drop.
  datatype Call = Called | Swapped | Completed

  // A call to `wait_shutdown` or `wait`: before the loop test, before `notified()`, before the
  // second test, awaiting, and over.
  datatype Wait = AtTest | AtCreate | AtRecheck(epoch: nat) | Parked(epoch: nat) | Returned | Elapsed

  datatype State = State(
    shutdown: bool,
    shutdownEpoch: nat,            // notifications issued on notify_shutdown
    calls: map<Id, Call>,
    shutdownWaits: map<Id, Wait>,
    waiters: int,                  // the atomic counter
    handles: set<Id>,              // live Waiter handles
    exitEpoch: nat,                // notifications issued on notify_exit
    pendingExits: nat,             // drops between their fetch_sub and their notify_waiters
    exitWaits: map<Id, Wait>)

  datatype ShutdownOp = Call(c: Id) | Swap(c: Id) | Notify(c: Id) | StartWait(w: Id) | StepWait(w: Id)

  datatype ExitOp =
    | NewHandle(h: Id)
    | DropHandle(h: Id)
    | NotifyExit
    | StartWaitExit(w: Id)
    | StepWaitExit(w: Id)
    | TimeOut(w: Id)

  datatype Action = OnShutdown(op: ShutdownOp) | OnExit(exitOp: ExitOp)

  ghost predicate Init(s: State) {
    s == State(false, 0, map[], map[], 1, {0}, 0, 0, map[])
  }

  /** One step of a wait loop whose condition to stop currently reads `stop`. */
  function Advance(w: Wait, stop: bool, epoch: nat): Wait {
    match w
    case AtTest => if stop then Returned else AtCreate
    case AtCreate => AtRecheck(epoch)
    case AtRecheck(e) => if stop then Returned else Parked(e)
    case Parked(_) => AtTest
    case _ => w
  }

  /** A parked wait can go on only if a notification came after its `Notified` was created. */
  predicate CanAdvance(w: Wait, epoch: nat) {
    match w
    case Parked(e) => e < epoch
    case Returned => false
    case Elapsed => false
    case _ => true
  }

  predicate ShutdownNext(s: State, op: ShutdownOp, t: State) {
    match op
    case Call(c) =>
      c !in s.calls && t == s.(calls := s.calls[c := Called])
    case Swap(c) =>
      && c in s.calls && s.calls[c] == Called
      && t == s.(shutdown := true, calls := s.calls[c := if s.shutdown then Completed else Swapped])
    case Notify(c) =>
      && c in s.calls && s.calls[c] == Swapped
      && t == s.(shutdownEpoch := s.shutdownEpoch + 1, calls := s.calls[c := Completed])
    case StartWait(w) =>
      w !in s.shutdownWaits && t == s.(shutdownWaits := s.shutdownWaits[w := AtTest])
    case StepWait(w) =>
      && w in s.shutdownWaits && CanAdvance(s.shutdownWaits[w], s.shutdownEpoch)
      && t == s.(shutdownWaits := s.shutdownWaits[w := Advance(s.shutdownWaits[w], s.shutdown, s.shutdownEpoch)])
  }

  predicate ExitNext(s: State, op: ExitOp, t: State) {
    match op
    case NewHandle(h) =>
      h !in s.handles && t == s.(waiters := s.waiters + 1, handles := s.handles + {h})
    case DropHandle(h) =>
      && h in s.handles
      && t == s.(waiters := s.waiters - 1, handles := s.handles - {h},
                 pendingExits := s.pendingExits + if s.waiters == 1 then 1 else 0)
    case NotifyExit =>
      && s.pendingExits > 0
      && t == s.(exitEpoch := s.exitEpoch + 1, pendingExits := s.pendingExits - 1)
    case StartWaitExit(w) =>
      w !in s.exitWaits && t == s.(exitWaits := s.exitWaits[w := AtTest])
    case StepWaitExit(w) =>
      && w in s.exitWaits && CanAdvance(s.exitWaits[w], s.exitEpoch)
      && t == s.(exitWaits := s.exitWaits[w := Advance(s.exitWaits[w], s.waiters == 0, s.exitEpoch)])
    case TimeOut(w) =>
      && w in s.exitWaits && s.exitWaits[w].Parked?
      && t == s.(exitWaits := s.exitWaits[w := Elapsed])
  }

  predicate Next(s: State, a: Action, t: State) {
    match a
    case OnShutdown(op) => ShutdownNext(s, op, t)
    case OnExit(op) => ExitNext(s, op, t)
  }

  datatype Run = Run(states: seq<State>, actions: seq<Action>)

  predicate Step(r: Run, i: nat) {
    i < |r.actions| && |r.states| == |r.actions| + 1 && Next(r.states[i], r.actions[i], r.states[i + 1])
  }

  ghost predicate IsRun(r: Run) {
    && |r.states| == |r.actions| + 1 && Init(r.states[0])
    && forall i :: 0 <= i < |r.actions| ==> Step(r, i)
  }

  // -------------------------------------------------------------- invariant

  /** No shutdown call is between its swap and its notification. */
  ghost predicate NoShutdownPending(s: State) {
    forall c :: c in s.calls ==> s.calls[c] != Swapped
  }

  ghost predicate ShutdownInv(s: State) {
    && (!s.shutdown ==> s.shutdownEpoch == 0 && NoShutdownPending(s))
    && (s.shutdown && NoShutdownPending(s) ==> s.shutdownEpoch == 1)
    && (!NoShutdownPending(s) ==> s.shutdownEpoch == 0)
    && (forall c, d :: c in s.calls && d in s.calls && s.calls[c] == Swapped && s.calls[d] == Swapped ==> c == d)
    && (forall c :: c in s.calls && s.calls[c] == Completed ==> s.shutdown)
    && (forall w :: w in s.shutdownWaits && s.shutdownWaits[w].AtRecheck? ==>
          s.shutdownWaits[w].epoch <= s.shutdownEpoch)
    && (forall w :: w in s.shutdownWaits && s.shutdownWaits[w].Parked? ==> s.shutdownWaits[w].epoch == 0)
    && (forall w :: w in s.shutdownWaits && s.shutdownWaits[w].Returned? ==> s.shutdown)
  }

  ghost predicate ExitInv(s: State) {
    && s.waiters == |s.handles|
    && (forall w :: w in s.exitWaits && s.exitWaits[w].AtRecheck? ==> s.exitWaits[w].epoch <= s.exitEpoch)
    && (forall w :: w in s.exitWaits && s.exitWaits[w].Parked? ==>
          && s.exitWaits[w].epoch <= s.exitEpoch
          && (s.exitWaits[w].epoch == s.exitEpoch ==> s.waiters > 0 || s.pendingExits > 0))
  }

  ghost predicate Inv(s: State) {
    ShutdownInv(s) && ExitInv(s)
  }

  lemma ShutdownInvKept(s: State, op: ShutdownOp, t: State)
    requires ShutdownInv(s) && ShutdownNext(s, op, t)
    ensures ShutdownInv(t)
  {
    if op.StartWait? || op.StepWait? {
      assert NoShutdownPending(t) <==> NoShutdownPending(s);
    } else {
      assert forall d :: d in s.calls && d != op.c ==> t.calls[d] == s.calls[d];
      assert t.calls[op.c] == if op.Call? then Called else if op.Notify? || s.shutdown then Completed else Swapped;
    }
  }

  lemma ExitInvKept(s: State, op: ExitOp, t: State)
    requires ExitInv(s) && ExitNext(s, op, t)
    ensures ExitInv(t)
  {
  }

  lemma InvStep(r: Run, i: nat)
    requires IsRun(r) && i < |r.actions|
    ensures Inv(r.states[i]) ==> Inv(r.states[i + 1])
  {
    assert Step(r, i);
    if Inv(r.states[i]) {
      match r.actions[i] {
        case OnShutdown(op) => ShutdownInvKept(r.states[i], op, r.states[i + 1]);
        case OnExit(op) => ExitInvKept(r.states[i], op, r.states[i + 1]);
      }
    }
  }

  lemma {:induction false} InvHolds(r: Run, i: nat)
    requires IsRun(r) && i < |r.states|
    ensures Inv(r.states[i])
  {
    if i > 0 {
      InvHolds(r, i - 1);
      InvStep(r, i - 1);
    }
  }

  // -------------------------------------------------------------- theorems

  /** The counter is the number of live handles and never goes below zero; a return means shutdown. */
  lemma CounterIsHandles(r: Run, i: nat)
    requires IsRun(r) && i < |r.states|
    ensures r.states[i].waiters == |r.states[i].handles|
    ensures forall w :: w in r.states[i].shutdownWaits && r.states[i].shutdownWaits[w].Returned? ==>
              r.states[i].shutdown
  {
    InvHolds(r, i);
  }

  /** How many steps of its own a wait still needs once its condition holds for good. */
  function StepsLeft(w: Wait): nat {
    match w
    case Returned => 0
    case Elapsed => 0
    case AtTest => 1
    case AtRecheck(_) => 1
    case AtCreate => 2
    case Parked(_) => 2
  }

  lemma {:induction false} ShutdownWaitNeverElapses(r: Run, i: nat, w: Id)
    requires IsRun(r) && i < |r.states| && w in r.states[i].shutdownWaits
    ensures !r.states[i].shutdownWaits[w].Elapsed?
    decreases i
  {
    if i > 0 {
      assert Step(r, i - 1);
      if w in r.states[i - 1].shutdownWaits {
        ShutdownWaitNeverElapses(r, i - 1, w);
      }
    }
  }

  /** `wait_all_exit` reports a timeout only if its timeout expired. */
  lemma ElapsedOnlyByTimeOut(r: Run, i: nat, w: Id)
    requires IsRun(r) && i < |r.actions| && w in r.states[i + 1].exitWaits && r.states[i + 1].exitWaits[w].Elapsed?
    ensures w in r.states[i].exitWaits
    ensures r.states[i].exitWaits[w].Elapsed? || r.actions[i] == OnExit(TimeOut(w))
  {
    assert Step(r, i);
  }

  /**
   No lost shutdown: once the notifying call has notified, that stays so, every unfinished
   `wait_shutdown` can take its next step in every later state, its own steps bring it to its
   return, and no step of anybody else takes it further from there. With no steps left it has
   returned, as it has no timeout.
   */
  lemma NoLostShutdown(r: Run, i: nat, j: nat, w: Id)
    requires IsRun(r) && i <= j < |r.states|
    requires r.states[i].shutdown && NoShutdownPending(r.states[i])
    requires w in r.states[j].shutdownWaits
    ensures var s := r.states[j]; s.shutdown && NoShutdownPending(s)
    ensures var s := r.states[j];
            !s.shutdownWaits[w].Returned? && !s.shutdownWaits[w].Elapsed? ==>
              CanAdvance(s.shutdownWaits[w], s.shutdownEpoch)
    ensures j < |r.actions| ==>
              && w in r.states[j + 1].shutdownWaits
              && var before, after := StepsLeft(r.states[j].shutdownWaits[w]), StepsLeft(r.states[j + 1].shutdownWaits[w]);
                 after == if r.actions[j] == OnShutdown(StepWait(w)) then before - 1 else before
    ensures StepsLeft(r.states[j].shutdownWaits[w]) == 0 ==> r.states[j].shutdownWaits[w].Returned?
  {
    ShutdownStays(r, i, j);
    InvHolds(r, j);
    ShutdownWaitNeverElapses(r, j, w);
    if j < |r.actions| {
      assert Step(r, j);
    }
  }

  lemma {:induction false} ShutdownStays(r: Run, i: nat, j: nat)
    requires IsRun(r) && i <= j < |r.states|
    requires r.states[i].shutdown && NoShutdownPending(r.states[i])
    ensures r.states[j].shutdown && NoShutdownPending(r.states[j])
    decreases j
  {
    if i < j {
      ShutdownStays(r, i, j - 1);
      var s, t := r.states[j - 1], r.states[j];
      assert Step(r, j - 1);
      forall c | c in t.calls
        ensures t.calls[c] != Swapped
      {
        assert c in s.calls ==> s.calls[c] != Swapped;
      }
    }
  }

  /**
   No lost exit: while no handle is live and no drop still owes its notification, every unfinished
   `wait` can take its next step, which brings it closer to its return, and no other step takes it
   further away. The last of its own steps is its return; only a timeout ends it otherwise.
   */
  lemma NoLostExit(r: Run, j: nat, w: Id)
    requires IsRun(r) && j < |r.states|
    requires r.states[j].handles == {} && r.states[j].pendingExits == 0
    requires w in r.states[j].exitWaits
    ensures var s := r.states[j];
            !s.exitWaits[w].Returned? && !s.exitWaits[w].Elapsed? ==> CanAdvance(s.exitWaits[w], s.exitEpoch)
    ensures j < |r.actions| ==>
              && w in r.states[j + 1].exitWaits
              && var before, after := StepsLeft(r.states[j].exitWaits[w]), StepsLeft(r.states[j + 1].exitWaits[w]);
                 if r.actions[j] == OnExit(StepWaitExit(w)) then after == before - 1 else after <= before
    ensures j < |r.actions| && !r.states[j].exitWaits[w].Elapsed? && r.actions[j] != OnExit(TimeOut(w)) ==>
              (StepsLeft(r.states[j + 1].exitWaits[w]) == 0 ==> r.states[j + 1].exitWaits[w].Returned?)
  {
    InvHolds(r, j);
    if j < |r.actions| {
      assert Step(r, j);
    }
  }

  /** How many of the actions from number `i` up to number `j` are `a`. */
  function Times(r: Run, a: Action, i: nat, j: nat): nat
    requires i <= j <= |r.actions|
    decreases j
  {
    if i == j then 0 else Times(r, a, i, j - 1) + if r.actions[j - 1] == a then 1 else 0
  }

  /**
   So shutdown is delivered: after the notification, a `wait_shutdown` that gets to take the steps it
   still has returns, whatever anybody else does in between; two are always enough.
   */
  lemma {:induction false} WaitShutdownReturns(r: Run, i: nat, j: nat, w: Id)
    requires IsRun(r) && i <= j < |r.states|
    requires r.states[i].shutdown && NoShutdownPending(r.states[i]) && w in r.states[i].shutdownWaits
    ensures w in r.states[j].shutdownWaits
    ensures StepsLeft(r.states[j].shutdownWaits[w]) + Times(r, OnShutdown(StepWait(w)), i, j)
         == StepsLeft(r.states[i].shutdownWaits[w]) <= 2
    ensures r.states[j].shutdownWaits[w].Returned?
       <==> Times(r, OnShutdown(StepWait(w)), i, j) == StepsLeft(r.states[i].shutdownWaits[w])
    decreases j
  {
    if i < j {
      WaitShutdownReturns(r, i, j - 1, w);
      NoLostShutdown(r, i, j - 1, w);
    }
    NoLostShutdown(r, i, j, w);
  }

  /** From state `i` to state `j` no handle is live and no drop owes its notification. */
  predicate AllExited(r: Run, i: nat, j: nat)
    requires j < |r.states|
  {
    forall k :: i <= k <= j ==> r.states[k].handles == {} && r.states[k].pendingExits == 0
  }

  /**
   And the exit of all waiters is: a `wait_all_exit` that does not time out and gets to take its steps,
   at most two, while no handle is live and no notification is owed, ends in success.
   */
  lemma {:induction false} WaitAllExitSucceeds(r: Run, i: nat, j: nat, w: Id)
    requires IsRun(r) && i <= j < |r.states| && AllExited(r, i, j)
    requires w in r.states[i].exitWaits && !r.states[i].exitWaits[w].Elapsed?
    requires Times(r, OnExit(TimeOut(w)), i, j) == 0
    ensures w in r.states[j].exitWaits && !r.states[j].exitWaits[w].Elapsed?
    ensures StepsLeft(r.states[j].exitWaits[w]) + Times(r, OnExit(StepWaitExit(w)), i, j)
         == StepsLeft(r.states[i].exitWaits[w]) <= 2
    ensures r.states[j].exitWaits[w].Returned?
       <==> Times(r, OnExit(StepWaitExit(w)), i, j) == StepsLeft(r.states[i].exitWaits[w])
    decreases j
  {
    if i < j {
      WaitAllExitSucceeds(r, i, j - 1, w);
      OneExitStep(r, j - 1, w);
    }
  }

  lemma OneExitStep(r: Run, i: nat, w: Id)
    requires IsRun(r) && i < |r.actions| && AllExited(r, i, i) && r.actions[i] != OnExit(TimeOut(w))
    requires w in r.states[i].exitWaits && !r.states[i].exitWaits[w].Elapsed?
    ensures w in r.states[i + 1].exitWaits && !r.states[i + 1].exitWaits[w].Elapsed?
    ensures StepsLeft(r.states[i + 1].exitWaits[w])
         == StepsLeft(r.states[i].exitWaits[w]) - if r.actions[i] == OnExit(StepWaitExit(w)) then 1 else 0
  {
    NoLostExit(r, i, w);
    assert Step(r, i);
    if r.states[i + 1].exitWaits[w].Elapsed? {
      ElapsedOnlyByTimeOut(r, i, w);
      assert false;
    }
  }

  /** Without an owed notification a wait is stuck exactly while handles are live. */
  lemma StuckOnlyWhileHandlesLive(r: Run, j: nat, w: Id)
    requires IsRun(r) && j < |r.states|
    requires w in r.states[j].exitWaits && r.states[j].exitWaits[w].Parked?
    requires !CanAdvance(r.states[j].exitWaits[w], r.states[j].exitEpoch)
    ensures r.states[j].handles != {} || r.states[j].pendingExits > 0
  {
    InvHolds(r, j);
  }

  /** A `wait` returns only by a test that reads zero. */
  lemma ReturnsAtZero(r: Run, i: nat, w: Id)
    requires IsRun(r) && i < |r.actions|
    requires w in r.states[i + 1].exitWaits && r.states[i + 1].exitWaits[w].Returned?
    ensures w in r.states[i].exitWaits
    ensures r.states[i].exitWaits[w].Returned? || r.states[i].waiters == 0
  {
    assert Step(r, i);
  }

  /** `wait_all_exit` reports success only if at some moment during the call no handle was live. */
  lemma {:induction false} OkMeansAllExited(r: Run, i: nat, j: nat, w: Id) returns (k: nat)
    requires IsRun(r) && i < j < |r.states|
    requires w !in r.states[i].exitWaits
    requires w in r.states[j].exitWaits && r.states[j].exitWaits[w].Returned?
    ensures i < k < j && w in r.states[k].exitWaits && r.states[k].handles == {}
    decreases j
  {
    ReturnsAtZero(r, j - 1, w);
    if r.states[j - 1].exitWaits[w].Returned? {
      k := OkMeansAllExited(r, i, j - 1, w);
    } else {
      CounterIsHandles(r, j - 1);
      k := j - 1;
    }
  }
}
