/**
 How refused admissions starve the worker pool, in every configuration with a positive minimum: that
 many workers are refused at a moment when all others are about to leave, and their temporary
 admissions hide from those that nobody is left. The runs are built from what a reachable state looks
 like, its `Shape`: the main thread, the counter, and how many workers are where.
 */
module PoolStarvation {
  import opened WorkerPool

  datatype Config = Config(minimum: nat, default: nat, maximum: nat)

  predicate Valid(k: Config) {
    1 <= k.minimum < k.default < k.maximum
  }

  datatype Shape = Shape(main: Main, wtc: int, undone: nat, comers: nat, receivers: nat, askers: nat, undoers: nat, handlers: nat)

  ghost predicate Reachable(s: State) {
    exists r :: IsRun(r) && r.states[|r.actions|] == s
  }

  predicate HasShape(k: Config, s: State, x: Shape) {
    && s.minimum == k.minimum && s.default == k.default && s.maximum == k.maximum && !s.quit
    && s.main == x.main && s.wtc == x.wtc && s.undone == x.undone
    && Count(s, Comers) == x.comers && Count(s, Receivers) == x.receivers && Count(s, Idlers) == x.receivers
    && Count(s, Askers) == x.askers && Count(s, Undoers) == x.undoers && Count(s, Handlers) == x.handlers
  }

  /** Some reachable state has the shape. */
  ghost predicate Can(k: Config, x: Shape) {
    exists s :: Reachable(s) && HasShape(k, s, x)
  }

  lemma Extend(s: State, a: Action, t: State)
    requires Reachable(s) && Next(s, a, t)
    ensures Reachable(t)
  {
    var r :| IsRun(r) && r.states[|r.actions|] == s;
    var q := Run(r.states + [t], r.actions + [a]);
    forall i | 0 <= i < |q.actions|
      ensures Step(q, i)
    {
      if i < |r.actions| {
        assert Step(r, i);
        assert q.states[i] == r.states[i] && q.states[i + 1] == r.states[i + 1] && q.actions[i] == r.actions[i];
      }
    }
    assert IsRun(q);
  }

  /** One worker has moved: the counts of all groups. */
  lemma Moved(s: State, w: Id, t: State)
    requires w in t.workers && t.workers == s.workers[w := t.workers[w]]
    ensures forall g: Group :: Count(t, g) == Count(s, g) - Is(s.workers, w, g) + Is(t.workers, w, g)
  {
    forall g: Group
      ensures Count(t, g) == Count(s, g) - Is(s.workers, w, g) + Is(t.workers, w, g)
    {
      MoveCounts(s, w, t, g);
    }
  }

  // ------------------------------------------------------- one worker at a time

  lemma Entered(s: State, w: Id) returns (t: State)
    requires Reachable(s) && !s.quit && w in s.workers && Belongs(s.workers[w], Comers)
    ensures Reachable(t)
    ensures t == Move(s, w, if s.wtc + 1 > s.maximum then Undoing else Receiving).(wtc := s.wtc + 1)
  {
    var u := Move(s, w, AtAdmission);
    if s.workers[w] == AtTest {
      Extend(s, ByWorker(w, TestQuit), u);
    } else {
      assert u == s;
    }
    t := Move(s, w, if s.wtc + 1 > s.maximum then Undoing else Receiving).(wtc := s.wtc + 1);
    assert t.workers == u.workers[w := t.workers[w]];
    Extend(u, ByWorker(w, Admit), t);
  }

  lemma Left(s: State, w: Id) returns (t: State)
    requires Reachable(s) && !s.quit && w in s.workers && s.workers[w] == Receiving
    ensures Reachable(t)
    ensures t == Move(s, w, if s.wtc - 1 < s.minimum then Signalling else Handling).(wtc := s.wtc - 1)
  {
    var u := Move(s, w, AtQuitTest);
    Extend(s, ByWorker(w, Receive), u);
    var v := Move(s, w, AtRelease);
    assert v.workers == u.workers[w := AtRelease];
    Extend(u, ByWorker(w, TestQuitAgain), v);
    t := Move(s, w, if s.wtc - 1 < s.minimum then Signalling else Handling).(wtc := s.wtc - 1);
    assert t.workers == v.workers[w := t.workers[w]];
    Extend(v, ByWorker(w, Release), t);
  }

  function AfterEnter(k: Config, x: Shape): Shape
    requires x.comers > 0
  {
    if x.wtc + 1 > k.maximum then x.(wtc := x.wtc + 1, comers := x.comers - 1, undoers := x.undoers + 1)
    else x.(wtc := x.wtc + 1, comers := x.comers - 1, receivers := x.receivers + 1)
  }

  lemma EnterShape(k: Config, s: State, x: Shape, w: Id, t: State)
    requires HasShape(k, s, x) && w in s.workers && Belongs(s.workers[w], Comers) && x.comers > 0
    requires t == Move(s, w, if s.wtc + 1 > s.maximum then Undoing else Receiving).(wtc := s.wtc + 1)
    ensures HasShape(k, t, AfterEnter(k, x))
  {
    Moved(s, w, t);
  }

  lemma Enter(k: Config, x: Shape) returns (y: Shape)
    requires Can(k, x) && x.comers > 0
    ensures Can(k, y) && y == AfterEnter(k, x)
  {
    y := AfterEnter(k, x);
    var s :| Reachable(s) && HasShape(k, s, x);
    var w :| w in In(s.workers, Comers);
    var t := Entered(s, w);
    EnterShape(k, s, x, w, t);
  }

  function AfterLeave(k: Config, x: Shape): Shape
    requires x.receivers > 0
  {
    if x.wtc - 1 < k.minimum then x.(wtc := x.wtc - 1, receivers := x.receivers - 1, askers := x.askers + 1)
    else x.(wtc := x.wtc - 1, receivers := x.receivers - 1, handlers := x.handlers + 1)
  }

  lemma LeaveShape(k: Config, s: State, x: Shape, w: Id, t: State)
    requires HasShape(k, s, x) && w in s.workers && s.workers[w] == Receiving && x.receivers > 0
    requires t == Move(s, w, if s.wtc - 1 < s.minimum then Signalling else Handling).(wtc := s.wtc - 1)
    ensures HasShape(k, t, AfterLeave(k, x))
  {
    Moved(s, w, t);
  }

  lemma Leave(k: Config, x: Shape) returns (y: Shape)
    requires Can(k, x) && x.receivers > 0
    ensures Can(k, y) && y == AfterLeave(k, x)
  {
    y := AfterLeave(k, x);
    var s :| Reachable(s) && HasShape(k, s, x);
    var w :| w in In(s.workers, Receivers);
    var t := Left(s, w);
    LeaveShape(k, s, x, w, t);
  }

  lemma FinishShape(k: Config, s: State, x: Shape, w: Id, t: State)
    requires HasShape(k, s, x) && w in s.workers && Belongs(s.workers[w], Handlers) && x.handlers > 0
    requires t == Move(s, w, AtTest)
    ensures HasShape(k, t, x.(handlers := x.handlers - 1, comers := x.comers + 1))
  {
    Moved(s, w, t);
  }

  lemma Finish(k: Config, x: Shape)
    requires Can(k, x) && x.handlers > 0
    ensures Can(k, x.(handlers := x.handlers - 1, comers := x.comers + 1))
  {
    var s :| Reachable(s) && HasShape(k, s, x);
    var w :| w in In(s.workers, Handlers);
    var t := Move(s, w, AtTest);
    Extend(s, ByWorker(w, WorkerOp.Finish), t);
    FinishShape(k, s, x, w, t);
  }

  lemma UndoShape(k: Config, s: State, x: Shape, w: Id, t: State)
    requires HasShape(k, s, x) && w in s.workers && Belongs(s.workers[w], Undoers) && x.undoers > 0
    requires t == Move(s, w, Exited).(wtc := s.wtc - 1, undone := s.undone + 1)
    ensures HasShape(k, t, x.(wtc := x.wtc - 1, undoers := x.undoers - 1, undone := x.undone + 1))
  {
    Moved(s, w, t);
  }

  lemma UndoOne(k: Config, x: Shape)
    requires Can(k, x) && x.undoers > 0
    ensures Can(k, x.(wtc := x.wtc - 1, undoers := x.undoers - 1, undone := x.undone + 1))
  {
    var s :| Reachable(s) && HasShape(k, s, x);
    var w :| w in In(s.workers, Undoers);
    var t := Move(s, w, Exited).(wtc := s.wtc - 1, undone := s.undone + 1);
    Extend(s, ByWorker(w, Undo), t);
    UndoShape(k, s, x, w, t);
  }

  lemma AskShape(k: Config, s: State, x: Shape, w: Id, t: State)
    requires HasShape(k, s, x) && w in s.workers && Belongs(s.workers[w], Askers) && x.askers > 0
    requires t == Move(s, w, Handling).(main := AtCheck)
    ensures HasShape(k, t, x.(main := AtCheck, askers := x.askers - 1, handlers := x.handlers + 1))
  {
    Moved(s, w, t);
  }

  /** A worker asks for more, and the main thread goes to check. */
  lemma Ask(k: Config, x: Shape)
    requires Can(k, x) && x.askers > 0 && x.main == Waiting
    ensures Can(k, x.(main := AtCheck, askers := x.askers - 1, handlers := x.handlers + 1))
  {
    var s :| Reachable(s) && HasShape(k, s, x);
    var w :| w in In(s.workers, Askers);
    var t := Move(s, w, Handling).(main := AtLoop);
    Extend(s, ByWorker(w, Signal), t);
    Extend(t, ByMain(Loop), t.(main := AtCheck));
    AskShape(k, s, x, w, t.(main := AtCheck));
  }

  lemma MainCheck(k: Config, x: Shape)
    requires Can(k, x) && x.main == AtCheck
    ensures Can(k, x.(main := if x.wtc < k.minimum then Starting(k.default - x.wtc) else Waiting, undone := 0))
  {
    var s :| Reachable(s) && HasShape(k, s, x);
    var t := s.(main := if s.wtc < s.minimum then Starting(s.default - s.wtc) else Waiting, undone := 0);
    Extend(s, ByMain(Check), t);
    assert HasShape(k, t, x.(main := t.main, undone := 0));
  }

  lemma FreshWorker(workers: map<Id, Worker>) returns (w: Id)
    ensures w !in workers
  {
    w := 0;
    var rest := workers.Keys;
    while rest != {}
      invariant forall v :: v in workers && v !in rest ==> v < w
    {
      var v :| v in rest;
      w := if v < w then w else v + 1;
      rest := rest - {v};
    }
  }

  /** The number of workers that the main thread still has to start. */
  function Owing(m: Main): int {
    match m
    case InitialStart(n) => n
    case Starting(n) => n
    case _ => 0
  }

  function Less(m: Main): Main {
    match m
    case InitialStart(n) => InitialStart(n - 1)
    case Starting(n) => Starting(n - 1)
    case _ => m
  }

  lemma MainStarts(k: Config, x: Shape)
    requires Can(k, x) && Owing(x.main) > 0
    ensures Can(k, x.(main := Less(x.main), comers := x.comers + 1))
  {
    var s :| Reachable(s) && HasShape(k, s, x);
    var w := FreshWorker(s.workers);
    var t := Move(s, w, AtTest).(main := Less(x.main));
    Extend(s, ByMain(StartOne(w)), t);
    Moved(s, w, t);
    assert HasShape(k, t, x.(main := Less(x.main), comers := x.comers + 1));
  }

  /** All of them are started, and the main thread goes on: to its loop first, to its wait later. */
  lemma {:induction false} MainStartsAll(k: Config, x: Shape)
    requires Can(k, x) && Owing(x.main) >= 0 && (x.main.InitialStart? || x.main.Starting?)
    ensures Can(k, x.(main := if x.main.InitialStart? then AtCheck else Waiting, comers := x.comers + Owing(x.main)))
    decreases Owing(x.main)
  {
    if Owing(x.main) > 0 {
      MainStarts(k, x);
      MainStartsAll(k, x.(main := Less(x.main), comers := x.comers + 1));
    } else {
      var s :| Reachable(s) && HasShape(k, s, x);
      var t := s.(main := if x.main.Starting? then Waiting else AtLoop);
      Extend(s, ByMain(StartDone), t);
      if x.main.InitialStart? {
        Extend(t, ByMain(Loop), t.(main := AtCheck));
        assert HasShape(k, t.(main := AtCheck), x.(main := AtCheck));
      } else {
        assert HasShape(k, t, x.(main := Waiting));
      }
    }
  }

  // ------------------------------------------------------------ many at a time

  lemma {:induction false} EnterAll(k: Config, x: Shape)
    requires Can(k, x) && x.wtc + x.comers <= k.maximum
    ensures Can(k, x.(wtc := x.wtc + x.comers, receivers := x.receivers + x.comers, comers := 0))
    decreases x.comers
  {
    if x.comers > 0 {
      var y := Enter(k, x);
      EnterAll(k, y);
    }
  }

  /** All receivers leave; the last of them, if nobody else is admitted, asks for more. */
  lemma {:induction false} LeaveAll(k: Config, x: Shape) returns (y: Shape)
    requires Valid(k) && Can(k, x) && x.wtc == x.receivers + x.undoers
    ensures Can(k, y) && y == x.(wtc := x.undoers, receivers := 0, askers := y.askers, handlers := y.handlers)
    ensures y.askers + y.handlers == x.askers + x.handlers + x.receivers
    ensures if x.undoers >= k.minimum then y.askers == x.askers
            else if x.undoers == 0 && x.receivers > 0 then y.askers > x.askers else y.askers >= x.askers
    decreases x.receivers
  {
    if x.receivers == 0 {
      y := x;
    } else {
      var z := Leave(k, x);
      y := LeaveAll(k, z);
    }
  }

  lemma {:induction false} UndoAll(k: Config, x: Shape)
    requires Can(k, x)
    ensures Can(k, x.(wtc := x.wtc - x.undoers, undone := x.undone + x.undoers, undoers := 0))
    decreases x.undoers
  {
    if x.undoers > 0 {
      UndoOne(k, x);
      UndoAll(k, x.(wtc := x.wtc - 1, undoers := x.undoers - 1, undone := x.undone + 1));
    }
  }

  /** With enough workers admitted, everybody who asks is heard and nothing is started. */
  lemma {:induction false} AskAll(k: Config, x: Shape)
    requires Can(k, x) && x.main == Waiting && x.wtc >= k.minimum && x.undone == 0
    ensures Can(k, x.(askers := 0, handlers := x.handlers + x.askers))
    decreases x.askers
  {
    if x.askers > 0 {
      Ask(k, x);
      MainCheck(k, x.(main := AtCheck, askers := x.askers - 1, handlers := x.handlers + 1));
      AskAll(k, x.(askers := x.askers - 1, handlers := x.handlers + 1));
    }
  }

  /** `n` workers come back from their calls: into the receive as long as there is room, then refused. */
  lemma {:induction false} ComeBack(k: Config, x: Shape, n: nat)
    requires Can(k, x) && x.comers == 0 && x.handlers >= n
    requires x.wtc + n <= k.maximum || x.wtc >= k.maximum
    ensures Can(k, if x.wtc >= k.maximum then x.(wtc := x.wtc + n, handlers := x.handlers - n, undoers := x.undoers + n)
                   else x.(wtc := x.wtc + n, handlers := x.handlers - n, receivers := x.receivers + n))
    decreases n
  {
    if n > 0 {
      Finish(k, x);
      var y := Enter(k, x.(handlers := x.handlers - 1, comers := 1));
      if x.wtc < k.maximum && y.wtc >= k.maximum {
        assert n == 1;
      }
      if n > 1 {
        ComeBack(k, y, n - 1);
      }
    }
  }

  // ---------------------------------------------------------------- starvation

  /** `default` workers receive, the main thread waits, and `n` workers are busy with calls. */
  function Quiet(k: Config, n: nat): Shape {
    Shape(Waiting, k.default, 0, 0, k.default, 0, 0, n)
  }

  lemma QuietAtFirst(k: Config)
    requires Valid(k)
    ensures Can(k, Quiet(k, 0))
  {
    var s := State(k.minimum, k.default, k.maximum, 0, false, map[], InitialStart(k.default), 0, 0);
    var r := Run([s], []);
    assert IsRun(r) && r.states[|r.actions|] == s;
    var x := Shape(InitialStart(k.default), 0, 0, 0, 0, 0, 0, 0);
    assert forall g: Group :: In(s.workers, g) == {};
    assert HasShape(k, s, x);
    MainStartsAll(k, x);
    EnterAll(k, x.(main := AtCheck, comers := k.default));
    MainCheck(k, x.(main := AtCheck, wtc := k.default, receivers := k.default));
  }

  /** When all receivers are busy, the main thread is told, and starts as many again. */
  lemma QuietAndMore(k: Config, n: nat)
    requires Valid(k) && Can(k, Quiet(k, n))
    ensures Can(k, Quiet(k, n + k.default))
  {
    var y := LeaveAll(k, Quiet(k, n));
    Ask(k, y);
    y := y.(main := AtCheck, askers := y.askers - 1, handlers := y.handlers + 1);
    MainCheck(k, y);
    y := y.(main := Starting(k.default));
    MainStartsAll(k, y);
    y := y.(main := Waiting, comers := k.default);
    EnterAll(k, y);
    AskAll(k, y.(wtc := k.default, receivers := k.default, comers := 0));
  }

  lemma {:induction false} QuietWithMany(k: Config, n: nat) returns (m: nat)
    requires Valid(k)
    ensures m >= n && Can(k, Quiet(k, m))
  {
    if n == 0 {
      QuietAtFirst(k);
      m := 0;
    } else {
      m := QuietWithMany(k, n - 1);
      QuietAndMore(k, m);
      m := m + k.default;
    }
  }

  /**
   Starvation: in every configuration with a positive minimum, `minimum` refusals at the wrong moment
   leave a pool in which nobody receives or is about to, the main thread waits, and nobody is going
   to ask it for workers. No fewer refusals do, by `StarvationNeedsRefusals`.
   */
  lemma RefusalsStarve(k: Config) returns (s: State)
    requires Valid(k)
    ensures Reachable(s) && Starved(s) && s.undone == k.minimum
    ensures s.minimum == k.minimum && s.default == k.default && s.maximum == k.maximum
  {
    var m := QuietWithMany(k, k.maximum + k.minimum);
    var free := k.maximum - k.default;
    ComeBack(k, Quiet(k, m), free);
    var x := Quiet(k, m).(wtc := k.maximum, receivers := k.maximum, handlers := m - free);
    ComeBack(k, x, k.minimum);
    x := x.(wtc := k.maximum + k.minimum, handlers := m - free - k.minimum, undoers := k.minimum);
    var y := LeaveAll(k, x);
    UndoAll(k, y);
    s :| Reachable(s) && HasShape(k, s, y.(wtc := 0, undone := k.minimum, undoers := 0));
  }
}
