/**
 The sending half of an asynchronous connection as a state machine: any number of concurrent
 `transform_send` calls, the bounded queue, the writer task and the bytes on the wire. A call may be
 dropped at any of its awaits: the reservation, the lock and the acknowledgement. Deadlines are
 such drops, and expiry or cancellation seen by the writer may come at any time.
 */
module Outbound {
  import opened Wire
  import opened Wrappers
  import opened Pipeline

  const QUEUE_CAPACITY := 100

  type Id = nat  // one call of transform_send

  datatype Job = Job(frame: Frame, rpcError: bool, awaitAck: bool, control: bool)

  datatype Phase =
    | Reserving
    | Locking              // holds a permit
    | Locked               // holds a permit and the lock
    | Sealed(frame: Frame) // the transform has run; still holds both
    | Enqueued             // the permit is spent; still holds the lock
    | AwaitingAck
    | Done(ok: bool)

  datatype Message = Message(id: Id, plain: Frame, frame: Frame, awaitAck: bool, control: bool)

  datatype Ack = Pending | Sent(ok: bool) | HungUp

  // What the writer did with a message it finished with.
  datatype Fate = Written | Discarded | Failed

  datatype Writer = Idle | Holding(m: Message) | Writing(m: Message, n: nat) | Gone

  datatype State = State(
    jobs: map<Id, Job>,
    phases: map<Id, Phase>,
    counter: nat,              // the transform's outbound counter
    lock: Option<Id>,
    queue: seq<Message>,
    open: bool,                // the writer still holds the receiving end of the queue
    writer: Writer,
    wire: seq<Byte>,
    acks: map<Id, Ack>,        // the one-shot result channels
    log: seq<Message>,         // history: all messages in the order they entered the queue
    fates: seq<Fate>,          // history: what became of log[0], log[1], ...
    partial: seq<Byte>,        // history: what is on the wire of a frame that is not Written
    kept: seq<Message>)        // sent on a permit after the receiver was gone, and still held by the channel

  // What a call does, and what the writer task does.
  datatype Op =
    | Call(job: Job)
    | Reserve
    | ReserveFails
    | Acquire
    | Seal
    | Enqueue
    | Unlock
    | ReceiveAck
    | Abandon

  datatype WriterOp =
    | Take
    | Discard
    | Start
    | WriteBytes(k: nat)
    | Finish
    | Fail
    | Abort

  datatype Action = ByCall(id: Id, op: Op) | ByWriter(writerOp: WriterOp)

  ghost predicate Init(s: State) {
    s == State(map[], map[], 0, None, [], true, Idle, [], map[], [], [], [], [])
  }

  predicate At(s: State, t: Id, phase: Phase) {
    t in s.phases && s.phases[t] == phase
  }

  predicate HoldsPermit(p: Phase) {
    p.Locking? || p.Locked? || p.Sealed?
  }

  function Holders(phases: map<Id, Phase>): set<Id> {
    set t | t in phases && HoldsPermit(phases[t])
  }

  function Current(w: Writer): seq<Message> {
    if w.Holding? || w.Writing? then [w.m] else []
  }

  /** `send_result` on the message's one-shot channel, if it has one. */
  function SendResult(acks: map<Id, Ack>, m: Message, ok: bool): map<Id, Ack> {
    if m.awaitAck then acks[m.id := Sent(ok)] else acks
  }

  function Ids(ms: seq<Message>): set<Id> {
    set m | m in ms :: m.id
  }

  /** The writer task is over: the queue is closed, and what it still held is dropped. */
  function Close(s: State, lost: seq<Message>): State {
    s.(open := false, queue := [], writer := Gone,
       acks := map t | t in s.acks :: if t in Ids(lost) && s.acks[t] == Pending then HungUp else s.acks[t])
  }

  /** The message that the call has sealed. */
  function MessageOf(x: Option<Transform>, s: State, c: Id): Message
    requires c in s.phases && s.phases[c].Sealed? && c in s.jobs
  {
    var job := s.jobs[c];
    Message(c, job.frame, s.phases[c].frame, job.awaitAck, job.control && x.None?)
  }

  function Entered(s: State, m: Message): State {
    s.(phases := s.phases[m.id := Enqueued], queue := s.queue + [m], log := s.log + [m],
       acks := if m.awaitAck then s.acks[m.id := Pending] else s.acks)
  }

  /**
   A send on a permit succeeds even after the receiver is gone. The channel may drop the message, or
   keep it for as long as a sender lives, and the caller that waits for the answer holds one.
   */
  function EnteredLate(s: State, m: Message, keeps: bool): State {
    s.(phases := s.phases[m.id := Enqueued], kept := if keeps then s.kept + [m] else s.kept,
       acks := if m.awaitAck then s.acks[m.id := if keeps then Pending else HungUp] else s.acks)
  }

  ghost predicate CallNext(x: Option<Transform>, s: State, c: Id, op: Op, t: State) {
    match op
    case Call(job) =>
      && c !in s.phases && job.frame.header.length == Truncate(|job.frame.body|)
      && t == s.(jobs := s.jobs[c := job], phases := s.phases[c := Reserving])
    case Reserve =>
      && At(s, c, Reserving) && s.open && |s.queue| + |Holders(s.phases)| < QUEUE_CAPACITY
      && t == s.(phases := s.phases[c := Locking])
    case ReserveFails =>
      At(s, c, Reserving) && !s.open && t == s.(phases := s.phases[c := Done(false)])
    case Acquire =>
      At(s, c, Locking) && s.lock.None? && t == s.(lock := Some(c), phases := s.phases[c := Locked])
    case Seal =>
      && At(s, c, Locked) && c in s.jobs
      && var (r, next) := SealFrame(x, s.counter, s.jobs[c].frame, s.jobs[c].rpcError);
         t == if r.Ok? then s.(counter := next, phases := s.phases[c := Sealed(r.value)])
              else s.(counter := next, lock := None, phases := s.phases[c := Done(false)])
    case Enqueue =>
      && c in s.phases && s.phases[c].Sealed? && c in s.jobs
      && var m := MessageOf(x, s, c);
         if s.open then t == Entered(s, m) else t == EnteredLate(s, m, true) || t == EnteredLate(s, m, false)
    case Unlock =>
      && At(s, c, Enqueued) && c in s.jobs
      && t == s.(lock := None, phases := s.phases[c := if s.jobs[c].awaitAck then AwaitingAck else Done(true)])
    case ReceiveAck =>
      && At(s, c, AwaitingAck) && c in s.acks && s.acks[c] != Pending
      && t == s.(phases := s.phases[c := Done(s.acks[c] == Sent(true))])
    case Abandon =>
      && (At(s, c, Reserving) || At(s, c, Locking) || At(s, c, AwaitingAck))
      && t == s.(phases := s.phases[c := Done(false)])
  }

  ghost predicate WriterNext(s: State, op: WriterOp, t: State) {
    match op
    case Take =>
      s.writer == Idle && s.queue != [] && t == s.(writer := Holding(s.queue[0]), queue := s.queue[1..])
    case Discard =>  // expired or cancelled before its write
      && s.writer.Holding? && s.writer.m.control
      && t == s.(writer := Idle, fates := s.fates + [Discarded], acks := SendResult(s.acks, s.writer.m, false))
    case Start =>
      s.writer.Holding? && t == s.(writer := Writing(s.writer.m, 0))
    case WriteBytes(k) =>
      && s.writer.Writing? && s.writer.n + k <= |Encode(s.writer.m.frame)|
      && var bytes := Encode(s.writer.m.frame)[s.writer.n..s.writer.n + k];
         t == s.(writer := Writing(s.writer.m, s.writer.n + k), wire := s.wire + bytes, partial := s.partial + bytes)
    case Finish =>
      && s.writer.Writing? && s.writer.n == |Encode(s.writer.m.frame)|
      && t == s.(writer := Idle, fates := s.fates + [Written], partial := [],
                 acks := SendResult(s.acks, s.writer.m, true))
    case Fail =>     // an I/O error at any point, or expiry or cancellation during the write
      && s.writer.Writing?
      && t == Close(s.(fates := s.fates + [Failed], acks := SendResult(s.acks, s.writer.m, false)), s.queue)
    case Abort =>    // the connection task gives up, or every sender is gone
      !s.writer.Gone? && t == Close(s, Current(s.writer) + s.queue)
  }

  ghost predicate Next(x: Option<Transform>, s: State, a: Action, t: State) {
    match a
    case ByCall(c, op) => CallNext(x, s, c, op, t)
    case ByWriter(op) => WriterNext(s, op, t)
  }

  datatype Run = Run(states: seq<State>, actions: seq<Action>)

  ghost predicate Step(x: Option<Transform>, r: Run, i: nat) {
    i < |r.actions| && |r.states| == |r.actions| + 1 && Next(x, r.states[i], r.actions[i], r.states[i + 1])
  }

  ghost predicate IsRun(x: Option<Transform>, r: Run) {
    && |r.states| == |r.actions| + 1 && Init(r.states[0])
    && forall i :: 0 <= i < |r.actions| ==> Step(x, r, i)
  }

  // -------------------------------------------------------------- invariant

  /** The messages that were written completely, in queue order. */
  function WrittenMessages(log: seq<Message>, fates: seq<Fate>): (ms: seq<Message>)
    requires |fates| <= |log|
  {
    if fates == [] then []
    else
      var k := |fates| - 1;
      WrittenMessages(log, fates[..k]) + (if fates[k] == Written then [log[k]] else [])
  }

  function Frames(ms: seq<Message>): (fs: seq<Frame>)
    ensures |fs| == |ms| && forall i :: 0 <= i < |ms| ==> fs[i] == ms[i].frame
  {
    seq(|ms|, i requires 0 <= i < |ms| => ms[i].frame)
  }

  function Plains(ms: seq<Message>): (fs: seq<Frame>)
    ensures |fs| == |ms| && forall i :: 0 <= i < |ms| ==> fs[i] == ms[i].plain
  {
    seq(|ms|, i requires 0 <= i < |ms| => ms[i].plain)
  }

  /** Every message that entered the queue is finished, with the writer, or still queued, in that order. */
  ghost predicate LogInv(s: State) {
    && s.open == !s.writer.Gone?
    && (s.open ==> |s.fates| <= |s.log| && s.log[|s.fates|..] == Current(s.writer) + s.queue)
    && (!s.open ==> |s.fates| <= |s.log| && s.queue == [])
    && (s.open ==> s.kept == [])
    && (forall i :: 0 <= i < |s.fates| && s.fates[i] == Failed ==> i == |s.fates| - 1 && !s.open)
  }

  /** The message whose frame `partial` belongs to. */
  function Unfinished(s: State): nat {
    if s.fates != [] && s.fates[|s.fates| - 1] == Failed then |s.fates| - 1 else |s.fates|
  }

  ghost predicate WireInv(s: State) {
    && |s.fates| <= |s.log|
    && s.wire == EncodeAll(Frames(WrittenMessages(s.log, s.fates))) + s.partial
    && (s.writer.Writing? ==> s.writer.n <= |Encode(s.writer.m.frame)| && s.partial == Encode(s.writer.m.frame)[..s.writer.n])
    && (s.writer.Idle? || s.writer.Holding? ==> s.partial == [])
    && (s.partial != [] ==> Unfinished(s) < |s.log| && s.partial <= Encode(s.log[Unfinished(s)].frame))
  }

  predicate UnderLock(p: Phase) {
    p.Locked? || p.Sealed? || p.Enqueued?
  }

  ghost predicate LockInv(s: State) {
    && s.phases.Keys == s.jobs.Keys
    && (forall c :: c in s.jobs ==> s.jobs[c].frame.header.length == Truncate(|s.jobs[c].frame.body|))
    && (forall c :: c in s.phases && UnderLock(s.phases[c]) <==> s.lock == Some(c))
    && |s.queue| + |Holders(s.phases)| <= QUEUE_CAPACITY
  }

  /** The frame is the message's payload sealed at counter `n`. */
  predicate SealedAt(x: Option<Transform>, n: nat, plain: Frame, frame: Frame) {
    && plain.header.length == Truncate(|plain.body|)
    && SealFrame(x, n, plain, false).0 == Ok(frame)
  }

  predicate LockHolderSealed(s: State) {
    s.lock.Some? && s.lock.value in s.phases && s.phases[s.lock.value].Sealed?
  }

  ghost predicate CounterInv(x: Option<Transform>, s: State) {
    && (x.None? ==> s.counter == 0)
    && (forall k :: 0 <= k < |s.log| ==>
          SealedAt(x, if x.Some? then k else 0, s.log[k].plain, s.log[k].frame) && (x.Some? ==> !s.log[k].control))
    && (x.Some? && s.open ==> s.counter == |s.log| + if LockHolderSealed(s) then 1 else 0)
    && (s.open && LockHolderSealed(s) && s.lock.value in s.jobs ==>
          SealedAt(x, if x.Some? then |s.log| else 0, s.jobs[s.lock.value].frame, s.phases[s.lock.value].frame))
    && (x.Some? ==> forall i :: 0 <= i < |s.fates| ==> s.fates[i] != Discarded)
  }

  function AckOf(s: State, i: nat): Ack {
    if i < |s.fates| then Sent(s.fates[i] == Written) else if s.open then Pending else HungUp
  }

  predicate HasEntered(p: Phase) {
    p.Enqueued? || p.AwaitingAck? || p.Done?
  }

  /** The message was made from the call's job. */
  predicate MadeFrom(s: State, m: Message) {
    && m.id in s.jobs && m.awaitAck == s.jobs[m.id].awaitAck && m.plain == s.jobs[m.id].frame
    && (m.control ==> s.jobs[m.id].control)
    && m.id in s.phases && HasEntered(s.phases[m.id])
  }

  /** A call's message enters the queue once, after which the call is past the lock. */
  ghost predicate EnteredInv(s: State) {
    && (forall i :: 0 <= i < |s.log| ==> MadeFrom(s, s.log[i]))
    && (forall i, j :: 0 <= i < j < |s.log| ==> s.log[i].id != s.log[j].id)
    && (forall c :: c in s.acks ==> c in s.phases && HasEntered(s.phases[c]) && c in s.jobs && s.jobs[c].awaitAck)
  }

  /** What came too late is not in the history of the queue, and its result channel stays open. */
  ghost predicate KeptInv(s: State, i: nat)
    requires i < |s.kept|
  {
    && MadeFrom(s, s.kept[i])
    && (forall k :: 0 <= k < |s.log| ==> s.log[k].id != s.kept[i].id)
    && (s.kept[i].awaitAck ==> s.kept[i].id in s.acks && s.acks[s.kept[i].id] == Pending)
  }

  predicate IsKept(s: State, c: Id) {
    exists i :: 0 <= i < |s.kept| && s.kept[i].id == c
  }

  ghost predicate AckedInv(s: State, i: nat)
    requires i < |s.log|
  {
    s.log[i].awaitAck ==> s.log[i].id in s.acks && s.acks[s.log[i].id] == AckOf(s, i)
  }

  /** An answer on a result channel comes from the message's own fate. */
  ghost predicate SourceInv(s: State, c: Id)
    requires c in s.acks
  {
    s.acks[c] != HungUp ==>
      (exists i :: 0 <= i < |s.log| && s.log[i].id == c && s.log[i].awaitAck) || (s.acks[c] == Pending && IsKept(s, c))
  }

  ghost predicate DoneInv(s: State, c: Id)
    requires c in s.phases
  {
    && (s.phases[c] == Done(true) && c in s.jobs && s.jobs[c].awaitAck ==> c in s.acks && s.acks[c] == Sent(true))
    && (s.phases[c].Enqueued? && c in s.jobs && s.jobs[c].awaitAck ==> c in s.acks)
    && (s.phases[c].AwaitingAck? ==> c in s.acks)
  }

  ghost predicate AckInv(s: State) {
    && EnteredInv(s)
    && (forall i :: 0 <= i < |s.log| ==> AckedInv(s, i))
    && (forall i :: 0 <= i < |s.kept| ==> KeptInv(s, i))
    && (forall c :: c in s.acks ==> SourceInv(s, c))
    && (forall c :: c in s.phases ==> DoneInv(s, c))
  }

  ghost predicate BaseInv(s: State) {
    LogInv(s) && WireInv(s) && LockInv(s) && AckInv(s)
  }
}
