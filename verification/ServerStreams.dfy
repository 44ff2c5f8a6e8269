/**
 The server's inbound half as a state machine: the connection reader starts a task for each frame
 and waits until the task lets go of its `wait_tx`; a task for a stream request registers the stream
 before it does so. Tasks may be dropped at their awaits once the connection's handlers are shut
 down.

 `frames` is what the read loop delivers. Whether a frame passes the inbound transform and what a
 request is dispatched to do not depend on the order of the tasks and are given by `Outcome`.
 */
module ServerStreams {
  import opened Wire
  import opened Wrappers

  datatype Outcome =
    | Dropped      // the inbound transform failed
    | Rejected     // the request does not decode, or its service or method is unknown
    | Unary
    | Stream

  datatype Input = Input(frame: Frame, outcome: Outcome)

  type TaskId = nat  // the number of the frame

  datatype Phase =
    | Spawned
    | Inserted                       // the stream is in the registry
    | AnsweringEven                  // reports an even stream id
    | Seeking                        // data, before the lookup
    | Looked(found: Option<TaskId>)
    | Running                        // a handler, or an answer to a request
    | Finished
    | Cancelled

  datatype Reader = Reading | WaitingFor(task: TaskId)

  datatype State = State(
    next: nat,
    reader: Reader,
    tasks: map<TaskId, Phase>,
    streams: map<U32, TaskId>,        // the registry; a value stands for the stream's mailbox
    receivers: map<TaskId, bool>,     // for each stream so far, whether its receiver is alive
    shutdown: bool)

  datatype TaskOp =
    | AnswerEven
    | Answered
    | Dispatch
    | Insert
    | Release
    | ReleaseData
    | Look
    | Ignore
    | Finish
    | Cancel

  datatype Action = Read | Resume | Shutdown | ByTask(task: TaskId, op: TaskOp) | DropReceiver(owner: TaskId)

  predicate IsOdd(id: U32) {
    id % 2 == 1
  }

  predicate IsRequest(i: Input) {
    IsOdd(i.frame.header.streamId) && i.frame.header.kind == MESSAGE_TYPE_REQUEST
  }

  predicate IsStreamRequest(i: Input) {
    IsRequest(i) && i.outcome == Stream
  }

  predicate IsData(i: Input) {
    IsOdd(i.frame.header.streamId) && i.frame.header.kind == MESSAGE_TYPE_DATA
  }

  /** The task has not dropped its `wait_tx` yet. */
  predicate HoldsWait(p: Phase) {
    p.Spawned? || p.Inserted? || p.AnsweringEven?
  }

  ghost predicate Init(s: State) {
    s == State(0, Reading, map[], map[], map[], false)
  }

  /** The phase after an operation that changes nothing else. */
  predicate Moves(i: Input, p: Phase, op: TaskOp, q: Phase) {
    var h := i.frame.header;
    match op
    case AnswerEven => p.Spawned? && !IsOdd(h.streamId) && q.AnsweringEven?
    case Answered => p.AnsweringEven? && q.Finished?
    case Dispatch => p.Spawned? && IsRequest(i) && i.outcome != Stream && q.Running?
    case Release => p.Inserted? && q.Running?
    case ReleaseData => p.Spawned? && IsData(i) && q.Seeking?
    case Ignore => p.Spawned? && IsOdd(h.streamId) && !IsRequest(i) && !IsData(i) && q.Finished?
    case Finish => (p.Running? || p.Looked?) && q.Finished?
    case _ => false
  }

  ghost predicate TaskNext(frames: seq<Input>, s: State, k: TaskId, op: TaskOp, t: State) {
    && k in s.tasks && k < |frames|
    && var i := frames[k]; var p := s.tasks[k]; var id := i.frame.header.streamId;
       if op.Insert? then
         && p.Spawned? && IsStreamRequest(i)
         && t == s.(tasks := s.tasks[k := Inserted], streams := s.streams[id := k], receivers := s.receivers[k := true])
       else if op.Look? then
         && p.Seeking?
         && t == s.(tasks := s.tasks[k := Looked(if id in s.streams then Some(s.streams[id]) else None)])
       else if op.Cancel? then  // at an await, or before its first poll
         && s.shutdown && (p.Spawned? || p.AnsweringEven? || p.Running? || p.Looked?)
         && t == s.(tasks := s.tasks[k := Cancelled])
       else
         k in t.tasks && Moves(i, p, op, t.tasks[k]) && t == s.(tasks := s.tasks[k := t.tasks[k]])
  }

  ghost predicate Next(frames: seq<Input>, s: State, a: Action, t: State) {
    match a
    case Read =>
      && s.reader == Reading && s.next < |frames|
      && t == if s.shutdown || frames[s.next].outcome == Dropped then s.(next := s.next + 1)
              else s.(next := s.next + 1, tasks := s.tasks[s.next := Spawned], reader := WaitingFor(s.next))
    case Resume =>
      && s.reader.WaitingFor? && s.reader.task in s.tasks && !HoldsWait(s.tasks[s.reader.task])
      && t == s.(reader := Reading)
    case Shutdown => t == s.(shutdown := true)
    case ByTask(k, op) => TaskNext(frames, s, k, op, t)
    case DropReceiver(k) =>
      && k in s.receivers && s.receivers[k] && k in s.tasks && !HoldsWait(s.tasks[k]) && k < |frames|
      && t == s.(receivers := s.receivers[k := false], streams := s.streams - {frames[k].frame.header.streamId})
  }

  datatype Run = Run(states: seq<State>, actions: seq<Action>)

  ghost predicate Step(frames: seq<Input>, r: Run, i: nat) {
    i < |r.actions| && |r.states| == |r.actions| + 1 && Next(frames, r.states[i], r.actions[i], r.states[i + 1])
  }

  ghost predicate IsRun(frames: seq<Input>, r: Run) {
    && |r.states| == |r.actions| + 1 && Init(r.states[0])
    && forall i :: 0 <= i < |r.actions| ==> Step(frames, r, i)
  }

  /** The same stream id on the wire. */
  predicate SameStream(frames: seq<Input>, k: TaskId, l: TaskId)
    requires k < |frames| && l < |frames|
  {
    frames[k].frame.header.streamId == frames[l].frame.header.streamId
  }

  /** No other stream request shares the request's id. */
  predicate HasOwnId(frames: seq<Input>, k: TaskId)
    requires k < |frames|
  {
    forall l :: 0 <= l < |frames| && l != k && IsStreamRequest(frames[l]) ==> !SameStream(frames, k, l)
  }

  // -------------------------------------------------------------- invariant

  ghost predicate TaskInv(frames: seq<Input>, s: State, k: TaskId)
    requires k in s.tasks
  {
    && k < s.next <= |frames|
    && (HoldsWait(s.tasks[k]) ==> s.reader == WaitingFor(k))
    && (s.tasks[k].Cancelled? ==> s.shutdown)
    && (IsStreamRequest(frames[k]) ==> k in s.receivers || s.tasks[k].Spawned? || s.tasks[k].Cancelled?)
    && (s.tasks[k].Spawned? ==> k !in s.receivers)
    && (s.tasks[k].Seeking? ==> IsData(frames[k]))
  }

  ghost predicate StreamInv(frames: seq<Input>, s: State, k: TaskId)
    requires k in s.receivers
  {
    && k in s.tasks && k < |frames| && IsStreamRequest(frames[k])
    && (s.receivers[k] && HasOwnId(frames, k) ==>
          && frames[k].frame.header.streamId in s.streams
          && s.streams[frames[k].frame.header.streamId] == k)
  }

  ghost predicate RegistryInv(frames: seq<Input>, s: State, id: U32)
    requires id in s.streams
  {
    var k := s.streams[id];
    k < |frames| && frames[k].frame.header.streamId == id && k in s.receivers && s.receivers[k]
  }

  /** A stream request that was read and has no stream is the last one that got a task, or never gets one. */
  ghost predicate OpenedInv(frames: seq<Input>, s: State, k: TaskId)
    requires k < |frames|
  {
    k < s.next && IsStreamRequest(frames[k]) && k !in s.receivers ==>
      && (k in s.tasks || s.shutdown)
      && forall j :: j in s.tasks ==> j <= k
  }

  ghost predicate Inv(frames: seq<Input>, s: State) {
    && s.next <= |frames|
    && (s.reader.WaitingFor? ==> s.reader.task + 1 == s.next)
    && (forall k :: k in s.tasks ==> TaskInv(frames, s, k))
    && (forall k :: k in s.receivers ==> StreamInv(frames, s, k))
    && (forall id :: id in s.streams ==> RegistryInv(frames, s, id))
    && (forall k :: 0 <= k < |frames| ==> OpenedInv(frames, s, k))
  }

  lemma ReadKeepsTask(frames: seq<Input>, s: State, t: State, k: TaskId)
    requires Inv(frames, s) && Next(frames, s, Read, t) && k in t.tasks
    ensures TaskInv(frames, t, k)
  {
    if k in s.tasks {
      assert TaskInv(frames, s, k);
    }
    assert s.next !in s.receivers;
  }

  lemma TaskKeepsTask(frames: seq<Input>, s: State, l: TaskId, op: TaskOp, t: State, k: TaskId)
    requires TaskNext(frames, s, l, op, t) && k in s.tasks && TaskInv(frames, s, k)
    ensures k in t.tasks && TaskInv(frames, t, k)
  {
    if k == l {
      assert op.Insert? ==> t.tasks[k] == Inserted;
    } else {
      assert t.tasks[k] == s.tasks[k];
    }
  }

  lemma TaskInvKept(frames: seq<Input>, s: State, a: Action, t: State, k: TaskId)
    requires Inv(frames, s) && Next(frames, s, a, t) && k in t.tasks
    ensures TaskInv(frames, t, k)
  {
    if a.Read? {
      ReadKeepsTask(frames, s, t, k);
    } else {
      assert k in s.tasks && TaskInv(frames, s, k);
      if a.ByTask? {
        TaskKeepsTask(frames, s, a.task, a.op, t, k);
      }
    }
  }

  lemma InsertKeepsStream(frames: seq<Input>, s: State, l: TaskId, t: State, k: TaskId)
    requires TaskNext(frames, s, l, Insert, t) && k in s.receivers && StreamInv(frames, s, k)
    ensures k in t.receivers && StreamInv(frames, t, k)
  {
    assert HasOwnId(frames, k) && l != k ==> !SameStream(frames, k, l);
  }

  lemma DropKeepsStream(frames: seq<Input>, s: State, l: TaskId, t: State, k: TaskId)
    requires Next(frames, s, DropReceiver(l), t) && k in s.receivers && StreamInv(frames, s, k) && StreamInv(frames, s, l)
    ensures k in t.receivers && StreamInv(frames, t, k)
  {
    assert HasOwnId(frames, k) && l != k ==> !SameStream(frames, k, l);
  }

  lemma StreamInvKept(frames: seq<Input>, s: State, a: Action, t: State, k: TaskId)
    requires Inv(frames, s) && Next(frames, s, a, t) && k in t.receivers
    ensures StreamInv(frames, t, k)
  {
    if k in s.receivers {
      assert StreamInv(frames, s, k);
      if a.ByTask? && a.op.Insert? {
        InsertKeepsStream(frames, s, a.task, t, k);
      } else if a.DropReceiver? {
        assert StreamInv(frames, s, a.owner);
        DropKeepsStream(frames, s, a.owner, t, k);
      }
    }
  }

  lemma RegistryInvKept(frames: seq<Input>, s: State, a: Action, t: State, id: U32)
    requires Inv(frames, s) && Next(frames, s, a, t) && id in t.streams
    ensures RegistryInv(frames, t, id)
  {
    if id in s.streams {
      assert RegistryInv(frames, s, id);
      if a.DropReceiver? {
        assert s.streams[id] != a.owner;
      }
    }
  }

  lemma OpenedInvKept(frames: seq<Input>, s: State, a: Action, t: State, k: TaskId)
    requires Inv(frames, s) && Next(frames, s, a, t) && k < |frames|
    ensures OpenedInv(frames, t, k)
  {
    assert OpenedInv(frames, s, k);
    if k in s.tasks {
      assert TaskInv(frames, s, k);
    }
    if a.Read? && k == s.next {
      assert forall j :: j in s.tasks ==> TaskInv(frames, s, j);
    }
  }

  lemma InvKept(frames: seq<Input>, s: State, a: Action, t: State)
    requires Inv(frames, s) && Next(frames, s, a, t)
    ensures Inv(frames, t)
  {
    forall k | k in t.tasks
      ensures TaskInv(frames, t, k)
    {
      TaskInvKept(frames, s, a, t, k);
    }
    forall k | k in t.receivers
      ensures StreamInv(frames, t, k)
    {
      StreamInvKept(frames, s, a, t, k);
    }
    forall id | id in t.streams
      ensures RegistryInv(frames, t, id)
    {
      RegistryInvKept(frames, s, a, t, id);
    }
    forall k | 0 <= k < |frames|
      ensures OpenedInv(frames, t, k)
    {
      OpenedInvKept(frames, s, a, t, k);
    }
  }

  lemma {:induction false} InvHolds(frames: seq<Input>, r: Run, i: nat)
    requires IsRun(frames, r) && i < |r.states|
    ensures Inv(frames, r.states[i])
    decreases i
  {
    if i > 0 {
      assert Step(frames, r, i - 1);
      InvHolds(frames, r, i - 1);
      InvKept(frames, r.states[i - 1], r.actions[i - 1], r.states[i]);
    }
  }

  // --------------------------------------------------------------- theorems

  /** The stream's receiver is alive. */
  predicate IsOpen(s: State, k: TaskId) {
    k in s.receivers && s.receivers[k]
  }

  predicate IsDropped(s: State, k: TaskId) {
    k in s.receivers && !s.receivers[k]
  }

  /** Any data frame that gets as far as its lookup finds every stream request before it opened. */
  lemma RequestsBeforeAreOpened(frames: seq<Input>, r: Run, i: nat, j: TaskId, k: TaskId)
    requires IsRun(frames, r) && i < |r.states| && j in r.states[i].tasks
    requires k < j < |frames| && IsStreamRequest(frames[k])
    ensures k in r.states[i].receivers
  {
    InvHolds(frames, r, i);
    assert TaskInv(frames, r.states[i], j) && OpenedInv(frames, r.states[i], k);
  }

  /**
   Stream-open ordering: a data frame that follows a stream request on the wire finds that stream
   in the registry, unless the stream's receiver is already gone.
   */
  lemma DataFindsItsStream(frames: seq<Input>, r: Run, i: nat, j: TaskId, k: TaskId)
    requires IsRun(frames, r) && i < |r.actions| && r.actions[i] == ByTask(j, Look)
    requires k < j < |frames| && IsStreamRequest(frames[k]) && SameStream(frames, j, k) && HasOwnId(frames, k)
    ensures j in r.states[i + 1].tasks
    ensures r.states[i + 1].tasks[j] == Looked(Some(k)) || IsDropped(r.states[i], k)
  {
    var s := r.states[i];
    assert Step(frames, r, i);
    InvHolds(frames, r, i);
    RequestsBeforeAreOpened(frames, r, i, j, k);
    assert StreamInv(frames, s, k);
  }

  /** Conversely, what a data frame finds is a stream with its id that was requested and is alive. */
  lemma DataFindsOnlyItsStream(frames: seq<Input>, r: Run, i: nat, j: TaskId, k: TaskId)
    requires IsRun(frames, r) && i < |r.actions| && r.actions[i] == ByTask(j, Look)
    requires j in r.states[i + 1].tasks && r.states[i + 1].tasks[j] == Looked(Some(k))
    ensures j < |frames| && k < |frames| && IsStreamRequest(frames[k]) && SameStream(frames, j, k)
    ensures IsOpen(r.states[i], k)
  {
    var s := r.states[i];
    assert Step(frames, r, i);
    InvHolds(frames, r, i);
    var id := frames[j].frame.header.streamId;
    assert RegistryInv(frames, s, id);
    assert StreamInv(frames, s, k);
  }

  /** At most one task at a time keeps the reader waiting: the one for the frame it read last. */
  lemma OneTaskHoldsReader(frames: seq<Input>, r: Run, i: nat, k: TaskId)
    requires IsRun(frames, r) && i < |r.states|
    requires k in r.states[i].tasks && HoldsWait(r.states[i].tasks[k])
    ensures r.states[i].reader == WaitingFor(k) && r.states[i].next == k + 1
  {
    InvHolds(frames, r, i);
    assert TaskInv(frames, r.states[i], k);
  }

  // -------------------------------------- one run through any sequence of frames

  lemma Extend(frames: seq<Input>, r: Run, a: Action, t: State) returns (q: Run)
    requires IsRun(frames, r) && Next(frames, Last(r), a, t)
    ensures IsRun(frames, q) && Last(q) == t && q.actions == r.actions + [a] && q.states == r.states + [t]
  {
    q := Run(r.states + [t], r.actions + [a]);
    forall i | 0 <= i < |q.actions|
      ensures Step(frames, q, i)
    {
      if i < |r.actions| {
        assert Step(frames, r, i);
        assert q.states[i] == r.states[i] && q.states[i + 1] == r.states[i + 1] && q.actions[i] == r.actions[i];
      }
    }
  }

  function Last(r: Run): State
    requires r.states != []
  {
    r.states[|r.states| - 1]
  }

  /** The reader is between two frames and nothing has been shut down. */
  predicate Ready(frames: seq<Input>, s: State, n: nat) {
    s.reader.Reading? && !s.shutdown && s.next == n <= |frames|
  }

  /** How a task ends up once it no longer holds the reader, if no handler has come to an end. */
  function Settled(i: Input): Phase {
    if IsRequest(i) then Running else if IsData(i) then Seeking else Finished
  }

  /** The state after frame `k` has been processed as far as its task keeps the reader waiting. */
  function After(frames: seq<Input>, s: State): State
    requires s.next < |frames|
  {
    var k := s.next;
    if frames[k].outcome == Dropped then s.(next := k + 1)
    else if IsStreamRequest(frames[k]) then
      s.(next := k + 1, tasks := s.tasks[k := Running],
         streams := s.streams[frames[k].frame.header.streamId := k], receivers := s.receivers[k := true])
    else s.(next := k + 1, tasks := s.tasks[k := Settled(frames[k])])
  }

  lemma ProcessStream(frames: seq<Input>, r: Run) returns (q: Run)
    requires IsRun(frames, r) && Ready(frames, Last(r), Last(r).next) && Last(r).next < |frames|
    requires IsStreamRequest(frames[Last(r).next])
    ensures IsRun(frames, q) && Last(q) == After(frames, Last(r))
  {
    var s := Last(r);
    var k := s.next;
    var s1 := s.(next := k + 1, tasks := s.tasks[k := Spawned], reader := WaitingFor(k));
    q := Extend(frames, r, Read, s1);
    var s2 := s1.(tasks := s.tasks[k := Inserted], streams := s.streams[frames[k].frame.header.streamId := k],
                  receivers := s.receivers[k := true]);
    assert s1.tasks[k := Inserted] == s2.tasks;
    q := Extend(frames, q, ByTask(k, Insert), s2);
    var s3 := s2.(tasks := s.tasks[k := Running]);
    assert s2.tasks[k := Running] == s3.tasks;
    q := Extend(frames, q, ByTask(k, Release), s3);
    q := Extend(frames, q, Resume, s3.(reader := Reading));
  }

  lemma AnswerEvenId(frames: seq<Input>, r: Run, k: TaskId) returns (q: Run)
    requires IsRun(frames, r) && k < |frames| && k in Last(r).tasks && Last(r).tasks[k].Spawned?
    requires !IsOdd(frames[k].frame.header.streamId)
    ensures IsRun(frames, q) && Last(q) == Last(r).(tasks := Last(r).tasks[k := Finished])
  {
    var s := Last(r);
    var e := s.(tasks := s.tasks[k := AnsweringEven]);
    q := Extend(frames, r, ByTask(k, AnswerEven), e);
    var t := e.(tasks := e.tasks[k := Finished]);
    assert t.tasks == s.tasks[k := Finished];
    q := Extend(frames, q, ByTask(k, Answered), t);
  }

  lemma ProcessOther(frames: seq<Input>, r: Run) returns (q: Run)
    requires IsRun(frames, r) && Ready(frames, Last(r), Last(r).next) && Last(r).next < |frames|
    requires frames[Last(r).next].outcome != Dropped && !IsStreamRequest(frames[Last(r).next])
    ensures IsRun(frames, q) && Last(q) == After(frames, Last(r))
  {
    var s := Last(r);
    var k := s.next;
    var i := frames[k];
    var s1 := s.(next := k + 1, tasks := s.tasks[k := Spawned], reader := WaitingFor(k));
    q := Extend(frames, r, Read, s1);
    var s2 := s1.(tasks := s.tasks[k := Settled(i)]);
    if !IsOdd(i.frame.header.streamId) {
      q := AnswerEvenId(frames, q, k);
      assert s1.tasks[k := Finished] == s2.tasks;
    } else {
      assert s1.tasks[k := Settled(i)] == s2.tasks;
      q := Extend(frames, q, ByTask(k, if IsRequest(i) then Dispatch else if IsData(i) then ReleaseData else Ignore), s2);
    }
    q := Extend(frames, q, Resume, s2.(reader := Reading));
  }

  lemma ProcessFrame(frames: seq<Input>, r: Run) returns (q: Run)
    requires IsRun(frames, r) && Ready(frames, Last(r), Last(r).next) && Last(r).next < |frames|
    ensures IsRun(frames, q) && Last(q) == After(frames, Last(r))
  {
    if frames[Last(r).next].outcome == Dropped {
      q := Extend(frames, r, Read, After(frames, Last(r)));
    } else if IsStreamRequest(frames[Last(r).next]) {
      q := ProcessStream(frames, r);
    } else {
      q := ProcessOther(frames, r);
    }
  }

  /** The request is open, and its id leads to the last stream that was requested with it. */
  predicate OpenAt(frames: seq<Input>, s: State, k: TaskId)
    requires k < |frames|
  {
    IsStreamRequest(frames[k]) ==>
      && IsOpen(s, k) && k in s.tasks && s.tasks[k].Running?
      && frames[k].frame.header.streamId in s.streams && k <= s.streams[frames[k].frame.header.streamId]
  }

  predicate WaitsAt(frames: seq<Input>, s: State, k: TaskId)
    requires k < |frames|
  {
    IsData(frames[k]) && frames[k].outcome != Dropped ==> k in s.tasks && s.tasks[k].Seeking?
  }

  /** Every request so far is open, and data wait for their lookups. */
  predicate AllOpen(frames: seq<Input>, s: State, n: nat)
    requires n <= |frames|
  {
    && Ready(frames, s, n)
    && (forall k :: 0 <= k < n ==> OpenAt(frames, s, k))
    && (forall k :: 0 <= k < n ==> WaitsAt(frames, s, k))
  }

  lemma {:induction false} ProcessAll(frames: seq<Input>, n: nat) returns (r: Run)
    requires n <= |frames|
    ensures IsRun(frames, r) && AllOpen(frames, Last(r), n)
  {
    if n == 0 {
      r := Run([State(0, Reading, map[], map[], map[], false)], []);
    } else {
      var q := ProcessAll(frames, n - 1);
      r := ProcessFrame(frames, q);
      AfterIsAllOpen(frames, Last(q));
    }
  }

  lemma AfterIsAllOpen(frames: seq<Input>, s: State)
    requires s.next < |frames| && AllOpen(frames, s, s.next)
    ensures AllOpen(frames, After(frames, s), s.next + 1)
  {
    var t := After(frames, s);
    forall k | 0 <= k < s.next + 1
      ensures OpenAt(frames, t, k)
    {
      assert k < s.next ==> OpenAt(frames, s, k);
    }
    forall k | 0 <= k < s.next + 1
      ensures WaitsAt(frames, t, k)
    {
      assert k < s.next ==> WaitsAt(frames, s, k);
    }
  }

  // ------------------------------------------------ exactly when the order holds

  /** In every run, while the stream's receiver is alive its id leads to it. */
  ghost predicate AlwaysRegistered(frames: seq<Input>, k: TaskId)
    requires k < |frames|
  {
    forall r, i :: IsRun(frames, r) && 0 <= i < |r.states| && IsOpen(r.states[i], k) ==>
      RegisteredAs(frames, r.states[i], k)
  }

  predicate RegisteredAs(frames: seq<Input>, s: State, k: TaskId)
    requires k < |frames|
  {
    frames[k].frame.header.streamId in s.streams && s.streams[frames[k].frame.header.streamId] == k
  }

  /** In every run, data frame `j` finds the stream of request `k` unless that stream's receiver is gone. */
  ghost predicate AlwaysFinds(frames: seq<Input>, j: TaskId, k: TaskId) {
    forall r, i :: IsRun(frames, r) && 0 <= i < |r.actions| && r.actions[i] == ByTask(j, Look) ==> Finds(r, i, j, k)
  }

  predicate Finds(r: Run, i: nat, j: TaskId, k: TaskId) {
    && i + 1 < |r.states| && j in r.states[i + 1].tasks
    && (r.states[i + 1].tasks[j] == Looked(Some(k)) || IsDropped(r.states[i], k))
  }

  /** A run in which request `k`'s receiver is alive and its id does not lead to it; all data up to `n` wait. */
  lemma SharedIdIsLost(frames: seq<Input>, k: TaskId, l: TaskId, n: nat) returns (r: Run)
    requires k < n <= |frames| && l < n && k != l
    requires IsStreamRequest(frames[k]) && IsStreamRequest(frames[l]) && SameStream(frames, k, l)
    ensures IsRun(frames, r) && IsOpen(Last(r), k) && !RegisteredAs(frames, Last(r), k) && !Last(r).shutdown
    ensures forall j :: 0 <= j < n ==> WaitsAt(frames, Last(r), j)
    ensures l < k ==> frames[k].frame.header.streamId !in Last(r).streams
  {
    r := ProcessAll(frames, n);
    assert OpenAt(frames, Last(r), k) && OpenAt(frames, Last(r), l);
    if l < k {
      var s := Last(r);
      r := Extend(frames, r, DropReceiver(l),
                  s.(receivers := s.receivers[l := false], streams := s.streams - {frames[l].frame.header.streamId}));
      forall j | 0 <= j < n
        ensures WaitsAt(frames, Last(r), j)
      {
        assert WaitsAt(frames, s, j);
      }
    }
  }

  /** A stream is reachable for as long as it is alive, in every run, exactly if its id is its own. */
  lemma RegisteredExactly(frames: seq<Input>, k: TaskId)
    requires k < |frames| && IsStreamRequest(frames[k])
    ensures AlwaysRegistered(frames, k) <==> HasOwnId(frames, k)
  {
    if HasOwnId(frames, k) {
      forall r, i | IsRun(frames, r) && 0 <= i < |r.states| && IsOpen(r.states[i], k)
        ensures RegisteredAs(frames, r.states[i], k)
      {
        InvHolds(frames, r, i);
        assert StreamInv(frames, r.states[i], k);
      }
    } else {
      var l :| 0 <= l < |frames| && l != k && IsStreamRequest(frames[l]) && SameStream(frames, k, l);
      var r := SharedIdIsLost(frames, k, l, |frames|);
      assert !RegisteredAs(frames, r.states[|r.states| - 1], k);
    }
  }

  predicate DistinctRequests(frames: seq<Input>) {
    forall k, l :: 0 <= k < l < |frames| && IsStreamRequest(frames[k]) && IsStreamRequest(frames[l]) ==>
      !SameStream(frames, k, l)
  }

  /** So every live stream is reachable in every run exactly if all stream requests have distinct ids. */
  lemma AllRegisteredExactly(frames: seq<Input>)
    ensures (forall k :: 0 <= k < |frames| && IsStreamRequest(frames[k]) ==> AlwaysRegistered(frames, k))
       <==> DistinctRequests(frames)
  {
    forall k | 0 <= k < |frames| && IsStreamRequest(frames[k])
      ensures AlwaysRegistered(frames, k) <==> HasOwnId(frames, k)
    {
      RegisteredExactly(frames, k);
    }
    forall k | 0 <= k < |frames| && IsStreamRequest(frames[k]) && DistinctRequests(frames)
      ensures HasOwnId(frames, k)
    {
      assert forall l :: 0 <= l < |frames| && SameStream(frames, k, l) ==> SameStream(frames, l, k);
    }
    forall k, l | 0 <= k < l < |frames| && IsStreamRequest(frames[k]) && IsStreamRequest(frames[l]) && SameStream(frames, k, l)
      ensures !HasOwnId(frames, k)
    {
    }
  }

  /** Lookups meet the order of the wire, in every run, exactly for the requests whose id is their own. */
  lemma OrderHoldsExactly(frames: seq<Input>, j: TaskId, k: TaskId)
    requires k < j < |frames| && IsStreamRequest(frames[k]) && SameStream(frames, j, k)
    requires IsData(frames[j]) && frames[j].outcome != Dropped
    ensures AlwaysFinds(frames, j, k) <==> HasOwnId(frames, k)
  {
    if HasOwnId(frames, k) {
      forall r, i | IsRun(frames, r) && 0 <= i < |r.actions| && r.actions[i] == ByTask(j, Look)
        ensures Finds(r, i, j, k)
      {
        DataFindsItsStream(frames, r, i, j, k);
      }
    } else {
      var l :| 0 <= l < |frames| && l != k && IsStreamRequest(frames[l]) && SameStream(frames, k, l);
      var r, i := LookupMisses(frames, j, k, l);
      assert !Finds(r, i, j, k);
    }
  }

  lemma LookupMisses(frames: seq<Input>, j: TaskId, k: TaskId, l: TaskId) returns (r: Run, i: nat)
    requires k < j < |frames| && l < |frames| && l != k && SameStream(frames, j, k) && SameStream(frames, k, l)
    requires IsStreamRequest(frames[k]) && IsStreamRequest(frames[l])
    requires IsData(frames[j]) && frames[j].outcome != Dropped
    ensures IsRun(frames, r) && i < |r.actions| && r.actions[i] == ByTask(j, Look) && !Finds(r, i, j, k)
    ensures IsOpen(r.states[i], k) && !r.states[i].shutdown
    ensures j in r.states[i + 1].tasks && r.states[i + 1].tasks[j] != Looked(Some(k))
    ensures l < k ==> r.states[i + 1].tasks[j] == Looked(None)
  {
    var q := SharedIdIsLost(frames, k, l, |frames|);
    var s := Last(q);
    assert WaitsAt(frames, s, j);
    var id := frames[j].frame.header.streamId;
    i := |q.actions|;
    r := Extend(frames, q, ByTask(j, Look),
                s.(tasks := s.tasks[j := Looked(if id in s.streams then Some(s.streams[id]) else None)]));
    assert r.states[i] == s && r.states[i + 1] == Last(r);
  }

  /**
   What a repeated id does: the first stream's receiver takes the second stream's entry with it, and
   data for the second stream, which is alive, find nothing.
   */
  lemma RepeatedIdLosesStream(frames: seq<Input>, first: TaskId, second: TaskId, data: TaskId) returns (r: Run, i: nat)
    requires first < second < data < |frames|
    requires IsStreamRequest(frames[first]) && IsStreamRequest(frames[second])
    requires SameStream(frames, second, first) && SameStream(frames, data, second)
    requires IsData(frames[data]) && frames[data].outcome != Dropped
    ensures IsRun(frames, r) && i < |r.actions| && r.actions[i] == ByTask(data, Look)
    ensures IsOpen(r.states[i], second) && !r.states[i].shutdown
    ensures data in r.states[i + 1].tasks && r.states[i + 1].tasks[data] == Looked(None)
  {
    r, i := LookupMisses(frames, data, second, first);
  }
}
