/**
 The asynchronous client as a state machine: any number of callers (`Client::request` and
 `Client::new_stream`), the stream registry, the callers' mailboxes, the connection reader and the
 sending half of the connection. Each action is one stretch of code between two points where
 another task may run: a critical section of the registry's lock, a mailbox operation, or a step of
 the sending half. A caller may time out or be dropped at any of its awaits.

 Callers are numbered in the order in which they take a stream id.
 */
module ClientCore {
  import opened Wire
  import opened Wrappers
  import Pipeline
  import opened Demux
  import Outbound

  type CallerId = nat

  datatype Phase =
    | Allocated                 // has a stream id
    | Registered                // its mailbox is in the registry, guarded
    | Sending(call: Outbound.Id)
    | Waiting                   // a unary request, in `rx.recv`
    | Streaming                 // `new_stream` has returned; the receiver owns the registration
    | Leaving                   // the guard or the receiver is being dropped
    | Closing                   // no longer answers for the registration; drops its mailbox next
    | Finished

  // `since` is the number of events the reader had routed when the caller registered.
  datatype Caller = Caller(unary: bool, phase: Phase, box: Mailbox, since: Option<nat>, sender: bool)

  datatype Reader =
    | Ready
    | Posting(id: U32, box: CallerId, item: Item)  // holds a sender of the mailbox
    | Dropping(id: U32, box: CallerId)             // its send failed
    | Joining                                      // a read failed: the writer is aborted and joined
    | Losing                                       // about to disconnect; the writer is over
    | Draining(pending: map<U32, CallerId>)
    | Ended
    | EndedClean                                   // the writer returned because every sender was gone

  datatype State = State(
    out: Outbound.State,
    clean: bool,                       // the writer returned without an error
    callers: seq<Caller>,
    registry: map<U32, CallerId>,
    reader: Reader,
    events: seq<Event>,                // history: what the reader has routed
    handles: bool)                     // some `Client` or `StreamSender` still exists

  datatype CallerOp =
    | Refuse
    | Register
    | StartSend(call: Outbound.Id, job: Outbound.Job)
    | SendReturns
    | TakeItem
    | GiveUp
    | Unregister
    | CloseReceiver
    | StreamSend(call: Outbound.Id, job: Outbound.Job)

  datatype ReaderOp =
    | Route(e: Event)
    | Post
    | DropEntry
    | SeeWriter
    | ReadFails
    | Join
    | TakeRegistry
    | DrainOne(id: U32)
    | DrainDone

  datatype Action =
    | Allocate(unary: bool)
    | ByCaller(c: CallerId, op: CallerOp)
    | ByReader(readerOp: ReaderOp)
    | BySend(call: Outbound.Id, sendOp: Outbound.Op)
    | ByWriter(writerOp: Outbound.WriterOp)
    | CleanExit
    | DropHandles

  /** `next_stream_id` starts at one, goes up by two, and wraps. */
  function IdOf(c: CallerId): U32 {
    (1 + 2 * c) % 0x1_0000_0000
  }

  /** Ids repeat exactly every 2^31 allocations, and are always odd. */
  lemma IdsRepeat(c: CallerId, d: CallerId)
    ensures IdOf(c) % 2 == 1
    ensures IdOf(c) == IdOf(d) <==> (c - d) % 0x8000_0000 == 0
  {
    var a, b := (1 + 2 * c) / 0x1_0000_0000, (1 + 2 * d) / 0x1_0000_0000;
    assert 1 + 2 * c == a * 0x1_0000_0000 + IdOf(c) && 1 + 2 * d == b * 0x1_0000_0000 + IdOf(d);
    if IdOf(c) == IdOf(d) {
      assert c - d == (a - b) * 0x8000_0000;
    }
    if (c - d) % 0x8000_0000 == 0 {
      var k := (c - d) / 0x8000_0000;
      assert 1 + 2 * c == k * 0x1_0000_0000 + (1 + 2 * d);
    }
  }

  ghost predicate Init(s: State) {
    Outbound.Init(s.out) && s == State(s.out, false, [], map[], Ready, [], true)
  }

  function StreamOf(e: Event): U32
    requires e.Inbound? || e.SizeError?
  {
    e.header.streamId
  }

  ghost predicate CallerNext(x: Option<Pipeline.Transform>, s: State, c: CallerId, op: CallerOp, t: State) {
    && c < |s.callers|
    && var k := s.callers[c];
       match op
       case Refuse =>  // the request does not encode, is oversized, or is not allowed
         && k.phase.Allocated?
         && t == s.(callers := s.callers[c := k.(phase := Finished, box := k.box.(receiving := false))])
       case Register =>
         && k.phase.Allocated?
         && t == s.(registry := s.registry[IdOf(c) := c],
                    callers := s.callers[c := k.(phase := Registered, since := Some(|s.events|))])
       case StartSend(call, job) =>
         && k.phase.Registered? && job.frame.header.streamId == IdOf(c)
         && job.frame.header.kind == MESSAGE_TYPE_REQUEST && !job.awaitAck && job.control == k.unary
         && Outbound.CallNext(x, s.out, call, Outbound.Call(job), t.out)
         && t == s.(out := t.out, callers := s.callers[c := k.(phase := Sending(call))])
       case SendReturns =>
         && k.phase.Sending? && k.phase.call in s.out.phases && s.out.phases[k.phase.call].Done?
         && var ok := s.out.phases[k.phase.call].ok;
            t == s.(callers := s.callers[c := k.(phase := if !ok then Leaving else if k.unary then Waiting else Streaming,
                                                 sender := ok && !k.unary)])
       case TakeItem =>
         && (k.phase.Waiting? || k.phase.Streaming?) && k.box.taken < |k.box.sent|
         && t == s.(callers := s.callers[c := k.(phase := if k.unary then Closing else Streaming,
                                                 box := k.box.(taken := k.box.taken + 1))])
       case GiveUp =>  // a timeout, a dropped future or receiver, or a mailbox without senders
         && (k.phase.Waiting? || k.phase.Streaming?)
         && t == s.(callers := s.callers[c := k.(phase := Leaving)])
       case Unregister =>
         && k.phase.Leaving?
         && t == s.(registry := s.registry - {IdOf(c)}, callers := s.callers[c := k.(phase := Closing)])
       case CloseReceiver =>
         && k.phase.Closing?
         && t == s.(callers := s.callers[c := k.(phase := Finished, box := k.box.(receiving := false))])
       case StreamSend(call, job) =>
         && k.sender && s.handles && job.frame.header.streamId == IdOf(c)
         && job.frame.header.kind == MESSAGE_TYPE_DATA && job.awaitAck && !job.control
         && Outbound.CallNext(x, s.out, call, Outbound.Call(job), t.out)
         && t == s.(out := t.out)
  }

  /** What an inbound frame or a size error has to say to its stream. */
  function Routed(e: Event): Item
    requires e.Inbound? || e.SizeError?
  {
    ItemFor(e, StreamOf(e)).value
  }

  ghost predicate ReaderNext(s: State, op: ReaderOp, t: State) {
    match op
    case Route(e) =>
      && s.reader.Ready? && (e.Inbound? || e.SizeError?) && Opened(e)
      && t == s.(events := s.events + [e],
                 reader := if StreamOf(e) in s.registry
                           then Posting(StreamOf(e), s.registry[StreamOf(e)], Routed(e)) else Ready,
                 registry := if Terminal(Routed(e)) then s.registry - {StreamOf(e)} else s.registry)
    case Post =>
      && s.reader.Posting? && s.reader.box < |s.callers|
      && var k := s.callers[s.reader.box];
         t == if k.box.receiving
              then s.(reader := Ready,
                      callers := s.callers[s.reader.box := k.(box := k.box.(sent := k.box.sent + [s.reader.item]))])
              else s.(reader := Dropping(s.reader.id, s.reader.box))
    case DropEntry =>
      s.reader.Dropping? && t == s.(reader := Ready, registry := s.registry - {s.reader.id})
    case SeeWriter =>
      s.reader.Ready? && !s.out.open && t == s.(reader := if s.clean then EndedClean else Losing)
    case ReadFails =>
      s.reader.Ready? && t == s.(reader := Joining)
    case Join =>
      s.reader.Joining? && !s.out.open && t == s.(reader := Losing)
    case TakeRegistry =>
      && s.reader.Losing?
      && t == s.(reader := Draining(s.registry), registry := map[], events := s.events + [Disconnected])
    case DrainOne(id) =>
      && s.reader.Draining? && id in s.reader.pending && s.reader.pending[id] < |s.callers|
      && var c := s.reader.pending[id];
         var k := s.callers[c];
         t == s.(reader := Draining(s.reader.pending - {id}),
                 callers := if k.box.receiving
                            then s.callers[c := k.(box := k.box.(sent := k.box.sent + [Failure(ConnectionLost)]))]
                            else s.callers)
    case DrainDone =>
      s.reader == Draining(map[]) && t == s.(reader := Ended)
  }

  predicate HoldsSender(k: Caller) {
    k.phase.Allocated? || k.phase.Registered? || k.phase.Sending? || k.phase.Waiting?
  }

  ghost predicate Next(x: Option<Pipeline.Transform>, s: State, a: Action, t: State) {
    match a
    case Allocate(unary) =>
      s.handles && t == s.(callers := s.callers + [Caller(unary, Allocated, Mailbox([], 0, true), None, false)])
    case ByCaller(c, op) => CallerNext(x, s, c, op, t)
    case ByReader(op) => ReaderNext(s, op, t)
    case BySend(call, op) =>
      !op.Call? && Outbound.CallNext(x, s.out, call, op, t.out) && t == s.(out := t.out)
    case ByWriter(op) =>
      && (op.Abort? ==> s.reader.Joining?)
      && Outbound.WriterNext(s.out, op, t.out) && t == s.(out := t.out)
    case CleanExit =>
      && !s.handles && s.out.writer.Idle? && s.out.queue == []
      && Outbound.WriterNext(s.out, Outbound.Abort, t.out) && t == s.(out := t.out, clean := true)
    case DropHandles =>
      && (forall c :: 0 <= c < |s.callers| ==> !HoldsSender(s.callers[c]))
      && (forall call :: call in s.out.phases ==> s.out.phases[call].Done?)
      && t == s.(handles := false)
  }

  datatype Run = Run(states: seq<State>, actions: seq<Action>)

  ghost predicate Step(x: Option<Pipeline.Transform>, r: Run, i: nat) {
    i < |r.actions| && |r.states| == |r.actions| + 1 && Next(x, r.states[i], r.actions[i], r.states[i + 1])
  }

  ghost predicate IsRun(x: Option<Pipeline.Transform>, r: Run) {
    && |r.states| == |r.actions| + 1 && Init(r.states[0])
    && forall i :: 0 <= i < |r.actions| ==> Step(x, r, i)
  }

  // -------------------------------------------------------------- invariant

  /** The items for stream `id` among the events from number `n` on. */
  function Due(events: seq<Event>, n: nat, id: U32): seq<Item> {
    if |events| <= n then []
    else Due(events[..|events| - 1], n, id) + Addition(events[|events| - 1], id)
  }

  lemma DueExtended(events: seq<Event>, e: Event, n: nat, id: U32)
    requires n <= |events|
    ensures Due(events + [e], n, id) == Due(events, n, id) + Addition(e, id)
  {
    assert (events + [e])[..|events|] == events;
  }

  predicate InRegistry(s: State, c: CallerId) {
    IdOf(c) in s.registry
  }

  /** Registered, and the reader has not found its receiver gone. */
  predicate IsLive(s: State, c: CallerId) {
    InRegistry(s, c) && !(s.reader.Dropping? && s.reader.id == IdOf(c))
  }

  /** What the reader is on the way of putting into the mailbox. */
  function Inflight(r: Reader, c: CallerId): seq<Item> {
    if r.Posting? && r.box == c then [r.item]
    else if r.Draining? && IdOf(c) in r.pending then [Failure(ConnectionLost)]
    else []
  }

  predicate TerminalLast(items: seq<Item>) {
    forall i :: 0 <= i < |items| - 1 ==> !Terminal(items[i])
  }

  predicate Over(items: seq<Item>) {
    items != [] && Terminal(items[|items| - 1])
  }

  /** Between its registration and its departure. */
  predicate Active(p: Phase) {
    p.Registered? || p.Sending? || p.Waiting? || p.Streaming?
  }

  /** A unary caller that took a message after which its stream goes on. */
  predicate LeftOpen(k: Caller) {
    && k.unary && (k.phase.Closing? || k.phase.Finished?)
    && k.box.taken == 1 && |k.box.sent| > 0 && !Terminal(k.box.sent[0])
  }

  predicate ShapeOk(k: Caller) {
    && (k.phase.Allocated? ==> k.since.None?) && (k.since.None? ==> k.phase.Allocated? || k.phase.Finished?)
    && k.box.taken <= |k.box.sent|
    && k.box.receiving == !k.phase.Finished?
    && (k.phase.Waiting? ==> k.unary) && (k.phase.Streaming? ==> !k.unary)
    && (k.phase.Registered? || k.phase.Sending? || k.phase.Waiting? ==> k.box.taken == 0)
    && (k.sender ==> !k.unary && k.since.Some?)
  }

  /** Nothing follows a terminal item, and a caller's mailbox is complete or has its terminal item. */
  predicate MailboxOk(k: Caller, live: bool, inflight: seq<Item>, due: seq<Item>) {
    var coming := k.box.sent + inflight;
    && coming <= due && TerminalLast(coming)
    && (live ==> coming == due && !Over(coming))
    && (Active(k.phase) && !live ==> Over(coming))
  }

  function DueTo(s: State, c: CallerId): seq<Item>
    requires c < |s.callers|
  {
    match s.callers[c].since
    case None => []
    case Some(n) => Due(s.events, n, IdOf(c))
  }

  /** A call that started after the queue was closed cannot pass its reservation. */
  predicate Late(out: Outbound.State, call: Outbound.Id) {
    call in out.phases && (out.phases[call].Reserving? || out.phases[call] == Outbound.Done(false))
  }

  ghost predicate CallerInv(s: State, c: CallerId)
    requires c < |s.callers|
  {
    var k := s.callers[c];
    && ShapeOk(k)
    && (k.since.Some? ==> k.since.value <= |s.events|)
    && MailboxOk(k, IsLive(s, c), Inflight(s.reader, c), DueTo(s, c))
    && (InRegistry(s, c) ==> k.since.Some? && (Active(k.phase) || k.phase.Leaving? || LeftOpen(k)))
    && (k.phase.Sending? ==>
          k.phase.call in s.out.phases && k.phase.call in s.out.jobs && !s.out.jobs[k.phase.call].awaitAck)
    && ((s.reader.Draining? || s.reader.Ended?) && InRegistry(s, c) ==>
          k.phase.Registered? || k.phase.Leaving? || (k.phase.Sending? && Late(s.out, k.phase.call)))
  }

  /** The registry maps the id of a caller that registered to that caller. */
  predicate Owns(s: State, id: U32, c: CallerId) {
    c < |s.callers| && id == IdOf(c) && s.callers[c].since.Some?
  }

  ghost predicate RegistryInv(s: State) {
    forall id :: id in s.registry ==> Owns(s, id, s.registry[id])
  }

  ghost predicate ReaderInv(s: State) {
    && (s.reader.Posting? ==>
          && Owns(s, s.reader.id, s.reader.box)
          && (Terminal(s.reader.item) ==> s.reader.id !in s.registry))
    && (s.reader.Dropping? ==> Owns(s, s.reader.id, s.reader.box) && s.callers[s.reader.box].phase.Finished?)
    && (s.reader.Draining? ==> forall id :: id in s.reader.pending ==>
          Owns(s, id, s.reader.pending[id]) && id !in s.registry)
    && (s.reader.Losing? || s.reader.Draining? || s.reader.Ended? || s.reader.EndedClean? ==> !s.out.open)
    && (s.reader.EndedClean? ==> s.clean)
  }

  ghost predicate HandlesInv(s: State) {
    && (s.clean ==> !s.handles)
    && (!s.handles ==> forall c :: 0 <= c < |s.callers| ==> !HoldsSender(s.callers[c]))
  }

  /** Every message handed to the sending half belongs to a caller that had registered before. */
  predicate Known(s: State, id: U32) {
    id % 2 == 1 && (id - 1) / 2 < |s.callers| && s.callers[(id - 1) / 2].since.Some?
  }

  /** Only a request's message carries a control, and only a stream's data wait for an answer from the writer. */
  predicate JobInv(s: State, call: Outbound.Id)
    requires call in s.out.jobs
  {
    var job := s.out.jobs[call];
    && Known(s, job.frame.header.streamId)
    && (job.control ==> s.callers[(job.frame.header.streamId - 1) / 2].unary)
    && (job.awaitAck ==> job.frame.header.kind == MESSAGE_TYPE_DATA)
  }

  ghost predicate JobsInv(s: State) {
    forall call :: call in s.out.jobs ==> JobInv(s, call)
  }

  predicate Bounded(s: State) {
    |s.callers| <= 0x8000_0000
  }

  ghost predicate Inv(s: State) {
    && RegistryInv(s) && ReaderInv(s) && HandlesInv(s) && JobsInv(s)
    && forall c :: 0 <= c < |s.callers| ==> CallerInv(s, c)
  }

  lemma IdsDistinct(c: CallerId, d: CallerId)
    requires c < 0x8000_0000 && d < 0x8000_0000
    ensures IdOf(c) == 1 + 2 * c && (IdOf(c) == IdOf(d) <==> c == d)
  {
  }
}
