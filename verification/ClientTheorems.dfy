/**
 What the client guarantees in every run with at most 2^31 stream ids: nobody is left waiting on a
 lost connection, every registration has an owner, and every mailbox holds exactly what the reader
 routed to it.
 */
module ClientTheorems {
  import opened Wire
  import opened Wrappers
  import Pipeline
  import opened Demux
  import Outbound
  import OutboundTheorems
  import Receiver
  import opened ClientCore
  import opened ClientCallers
  import opened ClientInvariant

  // ----------------------------------------------------- no stranded caller

  /** The messages that still exist: with the writer, in the queue, or kept by the channel after its close. */
  function LiveMessages(out: Outbound.State): seq<Outbound.Message> {
    Outbound.Current(out.writer) + out.queue + out.kept
  }

  /** The message's control holds a sender of the caller's mailbox as long as the message lives. */
  predicate ControlLives(s: State, c: CallerId) {
    exists k :: 0 <= k < |LiveMessages(s.out)|
      && LiveMessages(s.out)[k].control && LiveMessages(s.out)[k].plain.header.streamId == IdOf(c)
  }

  lemma OnlyKeptLives(out: Outbound.State)
    requires Outbound.LogInv(out) && !out.open
    ensures LiveMessages(out) == out.kept
  {
  }

  lemma KeptControlIsUnary(s: State, c: CallerId, k: nat)
    requires Bounded(s) && JobsInv(s) && c < |s.callers|
    requires k < |s.out.kept| && Outbound.MadeFrom(s.out, s.out.kept[k]) && s.out.kept[k].control
    requires s.out.kept[k].plain.header.streamId == IdOf(c)
    ensures s.callers[c].unary
  {
    assert JobInv(s, s.out.kept[k].id);
    IdsDistinct(c, (IdOf(c) - 1) / 2);
  }

  /** After the queue is closed only a request's mailbox can have such a sender. */
  lemma LiveControlIsUnary(s: State, c: CallerId)
    requires Bounded(s) && JobsInv(s) && Outbound.LogInv(s.out) && Outbound.AckInv(s.out) && !s.out.open
    requires c < |s.callers| && ControlLives(s, c)
    ensures s.callers[c].unary
  {
    OnlyKeptLives(s.out);
    var k :| 0 <= k < |s.out.kept| && s.out.kept[k].control && s.out.kept[k].plain.header.streamId == IdOf(c);
    assert Outbound.KeptInv(s.out, k);
    KeptControlIsUnary(s, c, k);
  }

  /** Some sender of the caller's mailbox is left, so `recv` on the empty mailbox would wait. */
  predicate SenderLeft(s: State, c: CallerId) {
    InRegistry(s, c) || Inflight(s.reader, c) != [] || ControlLives(s, c)
  }

  /** Waiting for an item, with none there and nothing to end the wait. */
  predicate Stranded(s: State, c: CallerId)
    requires c < |s.callers|
  {
    && (s.callers[c].phase.Waiting? || s.callers[c].phase.Streaming?)
    && s.callers[c].box.taken == |s.callers[c].box.sent| && SenderLeft(s, c)
  }

  /**
   After the connection has ended through a failure, every caller that waits has its terminal item:
   a request has not taken it yet, and no stream's receiver can wait on its mailbox any more.
   */
  lemma NoStrandedCaller(x: Option<Pipeline.Transform>, r: Run, i: nat, c: CallerId)
    requires IsRun(x, r) && i < |r.states| && Bounded(r.states[i])
    requires r.states[i].reader.Ended? && c < |r.states[i].callers|
    ensures var s := r.states[i]; var k := s.callers[c];
            && !Stranded(s, c)
            && (k.phase.Waiting? || k.phase.Streaming? ==> Over(k.box.sent))
            && (k.phase.Waiting? ==> k.box.taken == 0 < |k.box.sent|)
            && (k.phase.Streaming? ==> !SenderLeft(s, c))
  {
    InvHolds(x, r, i);
    SendingBaseInv(x, r, i);
    assert CallerInv(r.states[i], c);
    if r.states[i].callers[c].phase.Waiting? || r.states[i].callers[c].phase.Streaming? {
      EndedHasTerminal(r.states[i], c);
    }
  }

  lemma EndedHasTerminal(s: State, c: CallerId)
    requires Bounded(s) && Inv(s) && Outbound.BaseInv(s.out) && s.reader.Ended? && c < |s.callers|
    requires s.callers[c].phase.Waiting? || s.callers[c].phase.Streaming?
    ensures Over(s.callers[c].box.sent)
    ensures s.callers[c].phase.Streaming? ==> !SenderLeft(s, c)
  {
    assert CallerInv(s, c);
    assert s.callers[c].box.sent + [] == s.callers[c].box.sent;
    if ControlLives(s, c) {
      LiveControlIsUnary(s, c);
    }
  }

  /**
   Of all ends of a connection only the clean one can strand a caller, and it strands exactly the
   receivers that are still registered and have taken everything they were sent.
   */
  lemma StrandedExactly(x: Option<Pipeline.Transform>, r: Run, i: nat, c: CallerId)
    requires IsRun(x, r) && i < |r.states| && Bounded(r.states[i]) && c < |r.states[i].callers|
    requires r.states[i].reader.Ended? || r.states[i].reader.EndedClean?
    ensures var s := r.states[i]; var k := s.callers[c];
            Stranded(s, c) <==>
              s.reader.EndedClean? && k.phase.Streaming? && InRegistry(s, c) && k.box.taken == |k.box.sent|
  {
    var s := r.states[i];
    InvHolds(x, r, i);
    SendingBaseInv(x, r, i);
    assert CallerInv(s, c);
    if s.reader.Ended? {
      if s.callers[c].phase.Waiting? || s.callers[c].phase.Streaming? {
        EndedHasTerminal(s, c);
      }
    } else {
      assert !HoldsSender(s.callers[c]);
      if ControlLives(s, c) {
        LiveControlIsUnary(s, c);
      }
    }
  }

  /**
   A call of `transform_send` that has not returned when the queue is closed is stuck, other than by
   giving up, exactly if it is a stranded send; and that is never a request or a stream's opening,
   but data that a stream sends.
   */
  lemma StrandedSendIsData(x: Option<Pipeline.Transform>, r: Run, i: nat, call: Outbound.Id)
    requires IsRun(x, r) && i < |r.states| && Bounded(r.states[i]) && !r.states[i].out.open
    requires call in r.states[i].out.phases && !r.states[i].out.phases[call].Done?
    ensures var out := r.states[i].out;
            && (OutboundTheorems.StrandedSend(out, call) <==> !OutboundTheorems.CanGoOn(x, out, call))
            && (OutboundTheorems.StrandedSend(out, call) ==>
                  call in out.jobs && out.jobs[call].frame.header.kind == MESSAGE_TYPE_DATA)
  {
    SendingBaseInv(x, r, i);
    InvHolds(x, r, i);
    var s := r.states[i];
    OutboundTheorems.StuckIsStranded(x, s.out, call);
    if OutboundTheorems.StrandedSend(s.out, call) {
      StrandedAwaitsAck(s.out, call);
      assert JobInv(s, call);
    }
  }

  lemma StrandedAwaitsAck(out: Outbound.State, call: Outbound.Id)
    requires Outbound.AckInv(out) && OutboundTheorems.StrandedSend(out, call)
    ensures call in out.jobs && out.jobs[call].awaitAck
  {
    assert Outbound.DoneInv(out, call);
  }

  lemma OpeningIsNotStranded(s: State, c: CallerId)
    requires Inv(s) && Outbound.BaseInv(s.out) && c < |s.callers| && s.callers[c].phase.Sending?
    ensures !OutboundTheorems.StrandedSend(s.out, s.callers[c].phase.call)
  {
    assert CallerInv(s, c);
    if OutboundTheorems.StrandedSend(s.out, s.callers[c].phase.call) {
      StrandedAwaitsAck(s.out, s.callers[c].phase.call);
    }
  }

  // ------------------------------------------ nobody is stuck after a failure

  lemma FreshCall(m: map<Outbound.Id, Outbound.Phase>) returns (call: Outbound.Id)
    ensures call !in m
  {
    call := 0;
    var rest := m.Keys;
    while rest != {}
      invariant forall k :: k in m && k !in rest ==> k < call
    {
      var k :| k in rest;
      call := if k < call then call else k + 1;
      rest := rest - {k};
    }
  }

  /** The actions of one caller and of its own call, other than giving up. */
  predicate IsProgress(s: State, c: CallerId, a: Action)
    requires c < |s.callers|
  {
    || (a.ByCaller? && a.c == c && !a.op.GiveUp?)
    || (a.BySend? && !a.sendOp.Abandon? && s.callers[c].phase.Sending?
        && var call := s.callers[c].phase.call;
           a.call == call || (call in s.out.phases && s.out.phases[call].Locking? && s.out.lock == Some(a.call)))
  }

  /**
   Nor is a caller stuck anywhere else: after a failure every request that has not finished can
   take its next step, or waits for the outbound lock whose holder can; so can every stream that is
   being opened or dropped.
   */
  lemma NobodyIsStuck(x: Option<Pipeline.Transform>, r: Run, i: nat, c: CallerId) returns (a: Action, t: State)
    requires IsRun(x, r) && i < |r.states| && Bounded(r.states[i])
    requires r.states[i].reader.Ended? && c < |r.states[i].callers|
    requires !r.states[i].callers[c].phase.Finished? && !r.states[i].callers[c].phase.Streaming?
    ensures Next(x, r.states[i], a, t) && IsProgress(r.states[i], c, a)
  {
    InvHolds(x, r, i);
    SendingBaseInv(x, r, i);
    a, t := NextStep(x, r.states[i], c);
  }

  lemma NextStep(x: Option<Pipeline.Transform>, s: State, c: CallerId) returns (a: Action, t: State)
    requires Bounded(s) && Inv(s) && Outbound.BaseInv(s.out) && s.reader.Ended? && c < |s.callers|
    requires !s.callers[c].phase.Finished? && !s.callers[c].phase.Streaming?
    ensures Next(x, s, a, t) && IsProgress(s, c, a)
  {
    var k := s.callers[c];
    assert CallerInv(s, c);
    if k.phase.Sending? && !s.out.phases[k.phase.call].Done? {
      OpeningIsNotStranded(s, c);
      var d, op, out := OutboundTheorems.ClosedQueueFreesCalls(x, s.out, k.phase.call);
      a, t := BySend(d, op), s.(out := out);
    } else {
      var op: CallerOp;
      op, t := CallerStep(x, s, c);
      a := ByCaller(c, op);
    }
  }

  lemma CallerStep(x: Option<Pipeline.Transform>, s: State, c: CallerId) returns (op: CallerOp, t: State)
    requires c < |s.callers| && !s.callers[c].phase.Finished? && !s.callers[c].phase.Streaming?
    requires s.callers[c].phase.Sending? ==>
               s.callers[c].phase.call in s.out.phases && s.out.phases[s.callers[c].phase.call].Done?
    requires Bounded(s) && Inv(s) && Outbound.BaseInv(s.out) && s.reader.Ended?
    ensures CallerNext(x, s, c, op, t) && !op.GiveUp?
  {
    var k := s.callers[c];
    if k.phase.Allocated? {
      op := CallerOp.Register;
      t := s.(registry := s.registry[IdOf(c) := c],
              callers := s.callers[c := k.(phase := Registered, since := Some(|s.events|))]);
    } else if k.phase.Registered? {
      op, t := FirstSend(x, s, c);
    } else if k.phase.Sending? {
      op := SendReturns;
      var ok := s.out.phases[k.phase.call].ok;
      t := s.(callers := s.callers[c := k.(phase := if !ok then Leaving else if k.unary then Waiting else Streaming,
                                           sender := ok && !k.unary)]);
    } else if k.phase.Waiting? {
      EndedHasTerminal(s, c);
      assert CallerInv(s, c);
      op := TakeItem;
      t := s.(callers := s.callers[c := k.(phase := if k.unary then Closing else Streaming,
                                           box := k.box.(taken := k.box.taken + 1))]);
    } else if k.phase.Leaving? {
      op := CallerOp.Unregister;
      t := s.(registry := s.registry - {IdOf(c)}, callers := s.callers[c := k.(phase := Closing)]);
    } else {
      op := CallerOp.CloseReceiver;
      t := s.(callers := s.callers[c := k.(phase := Finished, box := k.box.(receiving := false))]);
    }
  }

  lemma FirstSend(x: Option<Pipeline.Transform>, s: State, c: CallerId) returns (op: CallerOp, t: State)
    requires c < |s.callers| && s.callers[c].phase.Registered?
    ensures CallerNext(x, s, c, op, t) && op.StartSend?
  {
    var call := FreshCall(s.out.phases);
    var frame := Frame(Header(0, IdOf(c), MESSAGE_TYPE_REQUEST, 0), []);
    var job := Outbound.Job(frame, false, false, s.callers[c].unary);
    var out := s.out.(jobs := s.out.jobs[call := job], phases := s.out.phases[call := Outbound.Reserving]);
    op := StartSend(call, job);
    t := s.(out := out, callers := s.callers[c := s.callers[c].(phase := Sending(call))]);
  }

  // ------------------------------------------------------ registry ownership

  /** The caller holds an armed guard or a live receiver for its id. */
  predicate HoldsRegistration(p: Phase) {
    Active(p) || p.Leaving?
  }

  /**
   Every registered id is odd and belongs to exactly one caller, which still holds its guard or
   its receiver, unless it is a request that was answered by data after which the stream goes on.
   */
  lemma EveryIdIsOwned(x: Option<Pipeline.Transform>, r: Run, i: nat, id: U32)
    requires IsRun(x, r) && i < |r.states| && Bounded(r.states[i]) && id in r.states[i].registry
    ensures var s := r.states[i]; var c := s.registry[id];
            && id % 2 == 1 && c < |s.callers| && id == IdOf(c)
            && (HoldsRegistration(s.callers[c].phase) || LeftOpen(s.callers[c]))
            && (forall d :: 0 <= d < |s.callers| && IdOf(d) == id ==> d == c)
  {
    var s := r.states[i];
    InvHolds(x, r, i);
    var c := s.registry[id];
    assert Owns(s, id, c);
    assert CallerInv(s, c);
    IdsRepeat(c, c);
    forall d | 0 <= d < |s.callers| && IdOf(d) == id
      ensures d == c
    {
      IdsDistinct(c, d);
    }
  }

  /** A caller that is over has left no registration, unless it was left open. */
  lemma IdGoneAfterRequest(x: Option<Pipeline.Transform>, r: Run, i: nat, c: CallerId)
    requires IsRun(x, r) && i < |r.states| && Bounded(r.states[i]) && c < |r.states[i].callers|
    requires r.states[i].callers[c].phase.Closing? || r.states[i].callers[c].phase.Finished?
    requires !LeftOpen(r.states[i].callers[c])
    ensures IdOf(c) !in r.states[i].registry
  {
    InvHolds(x, r, i);
    assert CallerInv(r.states[i], c);
  }

  /** The exception is exact: a request that takes its answer leaves its id exactly if nothing terminal came. */
  lemma IdStaysAfterOpenData(x: Option<Pipeline.Transform>, r: Run, i: nat, c: CallerId)
    requires IsRun(x, r) && i < |r.actions| && r.actions[i] == ByCaller(c, TakeItem)
    requires Bounded(r.states[i]) && c < |r.states[i].callers| && r.states[i].callers[c].unary
    ensures var s := r.states[i];
            IdOf(c) in r.states[i + 1].registry <==> !Over(s.callers[c].box.sent + Inflight(s.reader, c))
  {
    var s := r.states[i];
    InvHolds(x, r, i);
    assert Step(x, r, i);
    assert CallerInv(s, c);
    if InRegistry(s, c) {
      StillOpen(s, c);
      if s.reader.Dropping? {
        IdsDistinct(c, s.reader.box);
      }
    }
  }

  predicate EndsStream(e: Event, id: U32) {
    (e.Inbound? || e.SizeError?) && StreamOf(e) == id && Terminal(Routed(e))
  }

  /**
   A registration goes away only by its owner's doing, by its terminal item, by a failed send to an
   owner that is gone, or with the whole registry when the connection is lost.
   */
  lemma RemovedOnBehalfOfOwner(x: Option<Pipeline.Transform>, r: Run, i: nat, id: U32)
    requires IsRun(x, r) && i < |r.actions| && Bounded(r.states[i + 1])
    requires id in r.states[i].registry && id !in r.states[i + 1].registry
    ensures var s, a := r.states[i], r.actions[i]; var c := s.registry[id];
            || a == ByCaller(c, CallerOp.Unregister)
            || (a.ByReader? && a.readerOp.Route? && EndsStream(a.readerOp.e, id))
            || (a == ByReader(DropEntry) && c < |s.callers| && s.callers[c].phase.Finished?)
            || a == ByReader(TakeRegistry)
  {
    var s, a, t := r.states[i], r.actions[i], r.states[i + 1];
    assert Step(x, r, i);
    CallersOnlyGrow(x, s, a, t);
    InvHolds(x, r, i);
    assert Owns(s, id, s.registry[id]);
    if a.ByCaller? {
      CallerFrame(x, s, a.c, a.op, t);
      IdsDistinct(a.c, s.registry[id]);
    } else if a == ByReader(DropEntry) {
      IdsDistinct(s.reader.box, s.registry[id]);
    }
  }

  // ------------------------------------------------------ what is in a mailbox

  /** A stream's items up to the first terminal one. */
  function Cut(items: seq<Item>): seq<Item> {
    if items == [] then []
    else if Terminal(items[0]) then [items[0]]
    else [items[0]] + Cut(items[1..])
  }

  lemma {:induction false} CutIsPrefix(items: seq<Item>, come: seq<Item>)
    requires come <= items && TerminalLast(come) && (Over(come) || come == items)
    ensures Cut(items) == come
  {
    if come == [] {
    } else if Terminal(come[0]) {
      assert |come| == 1;
    } else {
      assert items[0] == come[0];
      var rest := come[1..];
      assert forall i :: 0 <= i < |rest| - 1 ==> rest[i] == come[i + 1];
      assert come != items ==> |come| > 1 && rest[|rest| - 1] == come[|come| - 1];
      CutIsPrefix(items[1..], rest);
    }
  }

  /**
   Demultiplexing at the granularity of the registry's lock: between its registration and its
   departure a caller has in its mailbox, or about to be put into it, exactly the events for its
   stream since it registered, up to the first terminal one.
   */
  lemma MailboxIsCutOfDue(x: Option<Pipeline.Transform>, r: Run, i: nat, c: CallerId)
    requires IsRun(x, r) && i < |r.states| && Bounded(r.states[i]) && c < |r.states[i].callers|
    requires Active(r.states[i].callers[c].phase)
    ensures var s := r.states[i];
            && s.callers[c].box.sent + Inflight(s.reader, c) == Cut(DueTo(s, c))
            && (InRegistry(s, c) <==> !Over(Cut(DueTo(s, c))))
  {
    var s := r.states[i];
    InvHolds(x, r, i);
    assert CallerInv(s, c);
    if s.reader.Dropping? {
      IdsDistinct(c, s.reader.box);
    }
    var coming := s.callers[c].box.sent + Inflight(s.reader, c);
    CutIsPrefix(DueTo(s, c), coming);
  }

  /** And whatever becomes of the caller, its mailbox never holds anything else. */
  lemma MailboxIsPrefixOfDue(x: Option<Pipeline.Transform>, r: Run, i: nat, c: CallerId)
    requires IsRun(x, r) && i < |r.states| && Bounded(r.states[i]) && c < |r.states[i].callers|
    ensures var s := r.states[i];
            s.callers[c].box.sent <= DueTo(s, c) && TerminalLast(s.callers[c].box.sent)
  {
    var s := r.states[i];
    InvHolds(x, r, i);
    assert CallerInv(s, c);
    var sent := s.callers[c].box.sent;
    var coming := sent + Inflight(s.reader, c);
    assert forall k :: 0 <= k < |sent| ==> coming[k] == sent[k];
  }

  // ------------------------------------------------------------ what recv makes of it

  lemma EventsStep(x: Option<Pipeline.Transform>, r: Run, i: nat)
    requires IsRun(x, r) && i < |r.actions|
    ensures FromPipeline(r.states[i].events) ==> FromPipeline(r.states[i + 1].events)
  {
    assert Step(x, r, i);
    if r.actions[i].ByCaller? {
      CallerFrame(x, r.states[i], r.actions[i].c, r.actions[i].op, r.states[i + 1]);
    }
  }

  lemma {:induction false} EventsFromPipeline(x: Option<Pipeline.Transform>, r: Run, i: nat)
    requires IsRun(x, r) && i < |r.states|
    ensures FromPipeline(r.states[i].events)
    decreases i
  {
    if i > 0 {
      EventsFromPipeline(x, r, i - 1);
      EventsStep(x, r, i - 1);
    }
  }

  /** What a stream is due: messages that can be routed and are within the limit, and failures. */
  lemma {:induction false} DueIsRoutable(events: seq<Event>, n: nat, id: U32)
    requires FromPipeline(events)
    ensures forall k :: 0 <= k < |Due(events, n, id)| ==> Clean([Due(events, n, id)[k]])
    decreases |events|
  {
    if |events| > n {
      var e := events[|events| - 1];
      assert Opened(e);
      DueIsRoutable(events[..|events| - 1], n, id);
    }
  }

  lemma CleanByItem(items: seq<Item>)
    requires TerminalLast(items) && forall k :: 0 <= k < |items| ==> Clean([items[k]])
    ensures Clean(items)
  {
    forall k | 0 <= k < |items| && items[k].Message?
      ensures !Oversized(|items[k].frame.body|)
      ensures items[k].frame.header.kind == MESSAGE_TYPE_RESPONSE || items[k].frame.header.kind == MESSAGE_TYPE_DATA
    {
      assert [items[k]][0] == items[k];
    }
  }

  /** In every run, nothing follows a terminal item in a mailbox, and its messages can be routed and fit. */
  lemma MailboxIsClean(x: Option<Pipeline.Transform>, r: Run, i: nat, c: CallerId)
    requires IsRun(x, r) && i < |r.states| && Bounded(r.states[i]) && c < |r.states[i].callers|
    ensures Clean(r.states[i].callers[c].box.sent)
  {
    var s := r.states[i];
    MailboxIsPrefixOfDue(x, r, i, c);
    EventsFromPipeline(x, r, i);
    if s.callers[c].since.Some? {
      DueIsRoutable(s.events, s.callers[c].since.value, IdOf(c));
      var sent, due := s.callers[c].box.sent, DueTo(s, c);
      assert forall k :: 0 <= k < |sent| ==> sent[k] == due[k];
    }
    CleanByItem(s.callers[c].box.sent);
  }

  /**
   Absorption in every run: once a call of `recv` has returned an error, or the payload of a terminal
   item, every later call returns an error, and end-of-file is not reported a second time.
   */
  lemma RecvAbsorbs(x: Option<Pipeline.Transform>, r: Run, i: nat, c: CallerId,
                    receivable: bool, n: nat, decode: Receiver.Decoder, j: nat, k: nat)
    requires IsRun(x, r) && i < |r.states| && Bounded(r.states[i]) && c < |r.states[i].callers| && j < k < n
    ensures var sent := r.states[i].callers[c].box.sent;
            var rs := Receiver.Calls(false, receivable, sent, n, decode);
            rs[j].Err? || (j < |sent| && Terminal(sent[j])) ==> rs[k].Err? && rs[k] != Err(Receiver.Eof)
  {
    var sent := r.states[i].callers[c].box.sent;
    MailboxIsClean(x, r, i, c);
    if Receiver.Calls(false, receivable, sent, n, decode)[j].Err? || (j < |sent| && Terminal(sent[j])) {
      Receiver.TerminationAbsorbs(receivable, sent, n, decode, j, k);
    }
  }

  /**
   What the reader does with a frame, in every run: if its stream is registered, the opened message is
   on its way to the owner's mailbox, or the failure if it does not open or cannot be routed; and the
   stream stays registered exactly if that is a message after which it goes on.
   */
  lemma FrameIsRouted(x: Option<Pipeline.Transform>, r: Run, i: nat, down: Option<Pipeline.Transform>, n: nat, f: Frame)
    requires IsRun(x, r) && i < |r.actions| && f.header.length == Pipeline.Truncate(|f.body|)
    requires r.actions[i] == ByReader(Route(Inbound(f.header, Pipeline.OpenFrame(down, n, f, false).0)))
    ensures var s, t, id := r.states[i], r.states[i + 1], f.header.streamId;
            if id in s.registry then
              && t.reader.Posting? && t.reader.id == id && t.reader.box == s.registry[id]
              && Conveys(down, n, f, t.reader.item)
              && (id in t.registry <==> t.reader.item.Message? && GoesOn(f.header))
            else t.reader == s.reader && id !in t.registry
  {
    assert Step(x, r, i);
    ItemConveysFrame(down, n, f);
  }

  /** The stream that a step of the reader is about; draining and ending concern all of them. */
  predicate Concerns(s: State, op: ReaderOp, id: U32) {
    match op
    case Route(e) => (e.Inbound? || e.SizeError?) && StreamOf(e) == id
    case Post => s.reader.Posting? && s.reader.id == id
    case DropEntry => s.reader.Dropping? && s.reader.id == id
    case DrainOne(jd) => id == jd
    case TakeRegistry => true
    case _ => false
  }

  /** Isolation: a step of the reader on one stream touches no other caller and no other registration. */
  lemma ReaderIsolation(x: Option<Pipeline.Transform>, r: Run, i: nat, op: ReaderOp, c: CallerId)
    requires IsRun(x, r) && i < |r.actions| && r.actions[i] == ByReader(op) && Bounded(r.states[i])
    requires c < |r.states[i].callers| && !Concerns(r.states[i], op, IdOf(c))
    ensures c < |r.states[i + 1].callers| && r.states[i + 1].callers[c] == r.states[i].callers[c]
    ensures InRegistry(r.states[i + 1], c) <==> InRegistry(r.states[i], c)
    ensures Inflight(r.states[i + 1].reader, c) == Inflight(r.states[i].reader, c)
  {
    var s, t := r.states[i], r.states[i + 1];
    InvHolds(x, r, i);
    assert Step(x, r, i);
    if s.reader.Posting? || s.reader.Dropping? {
      IdsDistinct(c, s.reader.box);
    }
    if op.Route? && StreamOf(op.e) in s.registry {
      IdsDistinct(c, s.registry[StreamOf(op.e)]);
    }
    if op.DrainOne? {
      IdsDistinct(c, s.reader.pending[op.id]);
    }
  }

  /** The reader waits for bytes or for the writer's end, but never for a consumer. */
  lemma ReaderNeverWaits(x: Option<Pipeline.Transform>, r: Run, i: nat) returns (op: ReaderOp, t: State)
    requires IsRun(x, r) && i < |r.states| && Bounded(r.states[i])
    requires var p := r.states[i].reader; p.Posting? || p.Dropping? || p.Losing? || p.Draining?
    ensures ReaderNext(r.states[i], op, t)
  {
    var s := r.states[i];
    InvHolds(x, r, i);
    if s.reader.Posting? {
      op := Post;
      var k := s.callers[s.reader.box];
      t := if k.box.receiving
           then s.(reader := Ready,
                   callers := s.callers[s.reader.box := k.(box := k.box.(sent := k.box.sent + [s.reader.item]))])
           else s.(reader := Dropping(s.reader.id, s.reader.box));
    } else if s.reader.Dropping? {
      op, t := DropEntry, s.(reader := Ready, registry := s.registry - {s.reader.id});
    } else if s.reader.Losing? {
      op := TakeRegistry;
      t := s.(reader := Draining(s.registry), registry := map[], events := s.events + [Disconnected]);
    } else if s.reader.pending == map[] {
      op, t := DrainDone, s.(reader := Ended);
    } else {
      op, t := DrainStep(s);
    }
  }

  lemma DrainStep(s: State) returns (op: ReaderOp, t: State)
    requires ReaderInv(s) && s.reader.Draining? && s.reader.pending != map[]
    ensures ReaderNext(s, op, t)
  {
    var id :| id in s.reader.pending;
    assert Owns(s, id, s.reader.pending[id]);
    op := DrainOne(id);
    var c := s.reader.pending[id];
    var k := s.callers[c];
    t := s.(reader := Draining(s.reader.pending - {id}),
            callers := if k.box.receiving
                       then s.callers[c := k.(box := k.box.(sent := k.box.sent + [Failure(ConnectionLost)]))]
                       else s.callers);
  }
}
