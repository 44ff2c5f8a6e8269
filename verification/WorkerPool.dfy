/**
 The synchronous server's self-regulating pool of method-handler threads for one connection: the
 shared counter `wtc`, the quit flag and the rendezvous channel on which the connection's main
 thread is asked for more workers. One step per atomic operation, every interleaving.
 */
module WorkerPool {

  type Id = nat

  datatype Worker =
    | AtTest        // before the loop's test of the quit flag
    | AtAdmission   // before fetch_add
    | Undoing       // refused: before the fetch_sub that takes the admission back
    | Receiving     // blocked in workload_rx.recv
    | AtQuitTest    // received, before the second test of the quit flag
    | AtRelease     // before fetch_sub
    | Signalling    // in control_tx.send, asking for more workers
    | Handling
    | Exited

  // `InitialStart` and `Starting` still have `n` workers to start; the latter is followed by the wait.
  datatype Main = InitialStart(n: int) | AtLoop | AtCheck | Starting(n: int) | Waiting | Gone

  datatype State = State(
    minimum: nat, default: nat, maximum: nat,
    wtc: int,
    quit: bool,
    workers: map<Id, Worker>,
    main: Main,
    leaked: nat,    // workers that left on quit without giving their admission back
    undone: nat)    // history: admissions taken back since the main thread last checked

  datatype WorkerOp = TestQuit | Admit | Undo | Receive | TestQuitAgain | Release | Signal | SignalLost | Finish | Fail

  datatype MainOp = SetQuit | Wake | Loop | Check | StartOne(w: Id) | StartDone

  datatype Action = ByWorker(w: Id, op: WorkerOp) | ByMain(mainOp: MainOp)

  predicate Ordered(s: State) {
    s.minimum < s.default < s.maximum
  }

  ghost predicate Init(s: State) {
    && Ordered(s)
    && s == State(s.minimum, s.default, s.maximum, 0, false, map[], InitialStart(s.default), 0, 0)
  }

  function Move(s: State, w: Id, phase: Worker): State {
    s.(workers := s.workers[w := phase])
  }

  predicate WorkerNext(s: State, w: Id, op: WorkerOp, t: State) {
    && w in s.workers
    && var at := s.workers[w];
       match op
       case TestQuit => at == AtTest && t == Move(s, w, if s.quit then Exited else AtAdmission)
       case Admit =>
         at == AtAdmission && t == Move(s, w, if s.wtc + 1 > s.maximum then Undoing else Receiving).(wtc := s.wtc + 1)
       case Undo => at == Undoing && t == Move(s, w, Exited).(wtc := s.wtc - 1, undone := s.undone + 1)
       case Receive => at == Receiving && t == Move(s, w, AtQuitTest)
       case TestQuitAgain =>
         && at == AtQuitTest
         && t == if s.quit then Move(s, w, Exited).(leaked := s.leaked + 1) else Move(s, w, AtRelease)
       case Release =>
         && at == AtRelease
         && t == Move(s, w, if s.wtc - 1 < s.minimum then Signalling else Handling).(wtc := s.wtc - 1)
       case Signal => at == Signalling && s.main == Waiting && t == Move(s, w, Handling).(main := AtLoop)
       case SignalLost => at == Signalling && s.main == Gone && t == Move(s, w, Handling)
       case Finish => at == Handling && t == Move(s, w, AtTest)
       case Fail => at == Handling && t == Move(s, w, Exited).(quit := true)
  }

  predicate MainNext(s: State, op: MainOp, t: State) {
    match op
    case SetQuit =>  // the reader or the response thread
      t == s.(quit := true)
    case Wake =>     // whoever set the flag tells the main thread
      s.quit && s.main == Waiting && t == s.(main := AtLoop)
    case Loop =>
      s.main == AtLoop && t == s.(main := if s.quit then Gone else AtCheck)
    case Check =>
      && s.main == AtCheck
      && t == s.(main := if s.wtc < s.minimum then Starting(s.default - s.wtc) else Waiting, undone := 0)
    case StartOne(w) =>
      && ToStart(s) > 0 && !s.quit && w !in s.workers
      && t == Move(s, w, AtTest).(main := if s.main.Starting? then Starting(s.main.n - 1) else InitialStart(s.main.n - 1))
    case StartDone =>
      && (s.main.Starting? || s.main.InitialStart?) && (ToStart(s) <= 0 || s.quit)
      && t == s.(main := if s.main.Starting? then Waiting else AtLoop)
  }

  predicate Next(s: State, a: Action, t: State) {
    match a
    case ByWorker(w, op) => WorkerNext(s, w, op, t)
    case ByMain(op) => MainNext(s, op, t)
  }

  function ToStart(s: State): (n: int)
    ensures n != 0 ==> s.main.Starting? || s.main.InitialStart?
  {
    match s.main
    case InitialStart(n) => n
    case Starting(n) => n
    case _ => 0
  }

  datatype Run = Run(states: seq<State>, actions: seq<Action>)

  predicate Step(r: Run, i: nat) {
    i < |r.actions| && |r.states| == |r.actions| + 1 && Next(r.states[i], r.actions[i], r.states[i + 1])
  }

  ghost predicate IsRun(r: Run) {
    && |r.states| == |r.actions| + 1 && Init(r.states[0])
    && forall i :: 0 <= i < |r.actions| ==> Step(r, i)
  }

  // --------------------------------------------------------------- counting

  // Idlers are admitted and not refused: blocked in the receive, or back from it and not yet released.
  // Comers have started, or are done with a call, and are not admitted yet.
  datatype Group = Idlers | Receivers | Comers | Undoers | Askers | Handlers

  predicate Belongs(p: Worker, g: Group) {
    match g
    case Idlers => p.Receiving? || p.AtQuitTest? || p.AtRelease?
    case Receivers => p.Receiving?
    case Comers => p.AtTest? || p.AtAdmission?
    case Undoers => p.Undoing?
    case Askers => p.Signalling?
    case Handlers => p.Handling?
  }

  function In(workers: map<Id, Worker>, g: Group): set<Id> {
    set w | w in workers && Belongs(workers[w], g)
  }

  function Count(s: State, g: Group): nat {
    |In(s.workers, g)|
  }

  function Is(workers: map<Id, Worker>, w: Id, g: Group): nat {
    if w in workers && Belongs(workers[w], g) then 1 else 0
  }

  lemma MoveCounts(s: State, w: Id, t: State, g: Group)
    requires w in t.workers && t.workers == s.workers[w := t.workers[w]]
    ensures Count(t, g) == Count(s, g) - Is(s.workers, w, g) + Is(t.workers, w, g)
  {
    var rest := In(s.workers, g) - {w};
    assert In(t.workers, g) - {w} == rest;
    WithOrWithout(s.workers, w, g, rest);
    WithOrWithout(t.workers, w, g, rest);
  }

  lemma WithOrWithout(workers: map<Id, Worker>, w: Id, g: Group, rest: set<Id>)
    requires rest == In(workers, g) - {w}
    ensures |In(workers, g)| == |rest| + Is(workers, w, g)
  {
    if w in In(workers, g) {
      assert In(workers, g) == rest + {w};
    } else {
      assert In(workers, g) == rest;
    }
  }

  // -------------------------------------------------------------- invariant

  ghost predicate CountInv(s: State) {
    && s.wtc == Count(s, Idlers) + Count(s, Undoers) + s.leaked
    && Count(s, Idlers) <= s.maximum
    && (s.leaked > 0 ==> s.quit)
  }

  ghost predicate MainInv(s: State) {
    Ordered(s) && 0 <= ToStart(s) <= s.default
  }

  /**
   Between two checks of the main thread the workers that may receive, now or soon, go below the
   minimum only by admissions that are being taken back or were, or somebody is about to ask for more.
   */
  ghost predicate SupplyInv(s: State) {
    !s.quit && (s.main == Waiting || s.main.Starting?) ==>
      Count(s, Idlers) + Count(s, Comers) + ToStart(s) + Count(s, Undoers) + s.undone >= s.minimum || Count(s, Askers) > 0
  }

  ghost predicate Inv(s: State) {
    CountInv(s) && MainInv(s) && SupplyInv(s)
  }

  lemma WorkerKeepsMain(s: State, w: Id, op: WorkerOp, t: State)
    requires MainInv(s) && WorkerNext(s, w, op, t)
    ensures MainInv(t)
  {
  }

  lemma WorkerKeepsCount(s: State, w: Id, op: WorkerOp, t: State)
    requires CountInv(s) && WorkerNext(s, w, op, t)
    ensures CountInv(t)
  {
    MoveCounts(s, w, t, Idlers);
    MoveCounts(s, w, t, Undoers);
  }

  lemma WorkerKeepsSupply(s: State, w: Id, op: WorkerOp, t: State)
    requires Inv(s) && WorkerNext(s, w, op, t)
    ensures SupplyInv(t)
  {
    MoveCounts(s, w, t, Idlers);
    MoveCounts(s, w, t, Undoers);
    MoveCounts(s, w, t, Comers);
    MoveCounts(s, w, t, Askers);
  }

  lemma MainKeepsInv(s: State, op: MainOp, t: State)
    requires Inv(s) && MainNext(s, op, t)
    ensures Inv(t)
  {
    if op.StartOne? {
      MoveCounts(s, op.w, t, Idlers);
      MoveCounts(s, op.w, t, Undoers);
      MoveCounts(s, op.w, t, Comers);
      MoveCounts(s, op.w, t, Askers);
    }
  }

  lemma InvStep(r: Run, i: nat)
    requires IsRun(r) && i < |r.actions|
    ensures Inv(r.states[i]) ==> Inv(r.states[i + 1])
  {
    assert Step(r, i);
    if Inv(r.states[i]) {
      match r.actions[i] {
        case ByWorker(w, op) =>
          WorkerKeepsMain(r.states[i], w, op, r.states[i + 1]);
          WorkerKeepsCount(r.states[i], w, op, r.states[i + 1]);
          WorkerKeepsSupply(r.states[i], w, op, r.states[i + 1]);
        case ByMain(op) => MainKeepsInv(r.states[i], op, r.states[i + 1]);
      }
    }
  }

  lemma {:induction false} InvHolds(r: Run, i: nat)
    requires IsRun(r) && i < |r.states|
    ensures Inv(r.states[i])
  {
    if i == 0 {
      assert In(r.states[0].workers, Idlers) == {} && In(r.states[0].workers, Undoers) == {};
    } else {
      InvHolds(r, i - 1);
      InvStep(r, i - 1);
    }
  }

  // --------------------------------------------------------------- theorems

  /** At most `maximum` workers are ever blocked in the receive, and the counter is exact until quit. */
  lemma PoolBound(r: Run, i: nat)
    requires IsRun(r) && i < |r.states|
    ensures var s := r.states[i]; Count(s, Receivers) <= s.maximum
    ensures var s := r.states[i]; !s.quit ==> s.wtc == Count(s, Idlers) + Count(s, Undoers)
    ensures r.states[i].wtc >= 0
  {
    InvHolds(r, i);
    var s := r.states[i];
    var blocked, idle := In(s.workers, Receivers), In(s.workers, Idlers);
    assert blocked <= idle;
    assert idle == blocked + (idle - blocked);
  }

  /** `default - c` never underflows: a check starts between one and `default` workers. */
  lemma StartCountInRange(r: Run, i: nat)
    requires IsRun(r) && i < |r.actions| && r.actions[i] == ByMain(Check)
    ensures var s := r.states[i];
            s.wtc < s.minimum ==> 1 <= ToStart(r.states[i + 1]) <= s.default
  {
    InvHolds(r, i);
    assert Step(r, i);
  }

  /**
   Supply: while the main thread waits, a request for more workers is on its way, or the workers that
   receive or are about to fall short of the minimum by no more than the refused admissions that are
   still to be taken back or were since the last check. So each check makes up for the refusals before it.
   */
  lemma SupplyShortByRefusals(r: Run, i: nat)
    requires IsRun(r) && i < |r.states| && !r.states[i].quit && r.states[i].main == Waiting
    ensures var s := r.states[i];
            Count(s, Idlers) + Count(s, Comers) + Count(s, Undoers) + s.undone >= s.minimum || Count(s, Askers) > 0
  {
    InvHolds(r, i);
  }

  /** The pool has run dry and nobody will notice. */
  ghost predicate Starved(s: State) {
    !s.quit && s.main == Waiting && Count(s, Idlers) == 0 && Count(s, Comers) == 0 && Count(s, Undoers) == 0 && Count(s, Askers) == 0
  }

  /** That takes at least `minimum` refusals since the last check. */
  lemma StarvationNeedsRefusals(r: Run, i: nat)
    requires IsRun(r) && i < |r.states| && Starved(r.states[i])
    ensures r.states[i].undone >= r.states[i].minimum
  {
    SupplyShortByRefusals(r, i);
  }
}
