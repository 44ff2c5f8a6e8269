/**
 The reader's steps keep the client's invariant, and so it holds in every run; so do the guarantees of
 the client's sending half.
 */
module ClientInvariant {
  import opened Wire
  import opened Wrappers
  import Pipeline
  import opened Demux
  import Outbound
  import OutboundSteps
  import opened ClientCore
  import opened ClientCallers

  // ----------------------------------------------------- the reader keeps it

  lemma ReaderOnlyFillsMailboxes(s: State, op: ReaderOp, t: State, c: CallerId)
    requires ReaderNext(s, op, t) && c < |s.callers|
    ensures |t.callers| == |s.callers|
    ensures t.callers[c] == s.callers[c].(box := s.callers[c].box.(sent := t.callers[c].box.sent))
    ensures s.callers[c].box.sent <= t.callers[c].box.sent
  {
  }

  lemma ReaderFrame(s: State, op: ReaderOp, t: State)
    requires ReaderNext(s, op, t)
    ensures t.out == s.out && t.clean == s.clean && t.handles == s.handles
    ensures |t.callers| == |s.callers|
    ensures forall c :: 0 <= c < |s.callers| ==>
              t.callers[c] == s.callers[c].(box := s.callers[c].box.(sent := t.callers[c].box.sent))
              && s.callers[c].box.sent <= t.callers[c].box.sent
    ensures forall id :: id in t.registry ==> id in s.registry && t.registry[id] == s.registry[id]
  {
    forall c | 0 <= c < |s.callers|
      ensures t.callers[c] == s.callers[c].(box := s.callers[c].box.(sent := t.callers[c].box.sent))
      ensures s.callers[c].box.sent <= t.callers[c].box.sent
    {
      ReaderOnlyFillsMailboxes(s, op, t, c);
    }
  }

  lemma AdditionIsRouted(e: Event, id: U32)
    requires e.Inbound? || e.SizeError?
    ensures Addition(e, id) == if id == StreamOf(e) then [Routed(e)] else []
  {
  }

  /** Only the addressed stream, and only if it is registered, gets something to come. */
  lemma RouteAddresses(s: State, e: Event, t: State, c: CallerId)
    requires Bounded(s) && Inv(s) && ReaderNext(s, Route(e), t) && c < |s.callers|
    ensures Inflight(s.reader, c) == []
    ensures Inflight(t.reader, c) == if IdOf(c) == StreamOf(e) && InRegistry(s, c) then [Routed(e)] else []
    ensures IsLive(t, c) <==> IsLive(s, c) && !(IdOf(c) == StreamOf(e) && Terminal(Routed(e)))
    ensures DueTo(t, c) == DueTo(s, c) + if IdOf(c) == StreamOf(e) && s.callers[c].since.Some? then [Routed(e)] else []
  {
    AdditionIsRouted(e, IdOf(c));
    assert CallerInv(s, c);
    if s.callers[c].since.Some? {
      DueExtended(s.events, e, s.callers[c].since.value, IdOf(c));
    }
    if StreamOf(e) in s.registry {
      IdsDistinct(c, s.registry[StreamOf(e)]);
    }
  }

  lemma MailboxRouted(k: Caller, live: bool, due: seq<Item>, item: Item)
    requires MailboxOk(k, live, [], due)
    ensures live ==> MailboxOk(k, !Terminal(item), [item], due + [item])
    ensures !live ==> MailboxOk(k, false, [], due + [item])
  {
    assert k.box.sent + [] == k.box.sent;
  }

  lemma RouteKeepsCaller(s: State, e: Event, t: State, c: CallerId)
    requires Bounded(s) && Inv(s) && ReaderNext(s, Route(e), t) && c < |s.callers|
    ensures CallerInv(t, c)
  {
    assert CallerInv(s, c);
    RouteAddresses(s, e, t, c);
    if IdOf(c) == StreamOf(e) && s.callers[c].since.Some? {
      MailboxRouted(s.callers[c], IsLive(s, c), DueTo(s, c), Routed(e));
    } else {
      NotAddressedUnlessSince(s, c);
      assert DueTo(t, c) == DueTo(s, c);
    }
  }

  lemma NotAddressedUnlessSince(s: State, c: CallerId)
    requires Bounded(s) && RegistryInv(s) && ReaderInv(s) && c < |s.callers|
    ensures s.callers[c].since.None? ==> !InRegistry(s, c)
  {
    if s.callers[c].since.None? {
      NotAddressed(s, c);
    }
  }

  /** An item that was on its way arrives. */
  lemma MailboxPosted(k: Caller, live: bool, item: Item, due: seq<Item>)
    requires ShapeOk(k) && MailboxOk(k, live, [item], due)
    ensures var l := k.(box := k.box.(sent := k.box.sent + [item]));
            ShapeOk(l) && MailboxOk(l, live, [], due) && (LeftOpen(k) ==> LeftOpen(l))
  {
    var l := k.(box := k.box.(sent := k.box.sent + [item]));
    assert l.box.sent + [] == k.box.sent + [item];
  }

  /** An item that was on its way is lost with the receiver. */
  lemma MailboxMissed(k: Caller, live: bool, item: Item, due: seq<Item>)
    requires MailboxOk(k, live, [item], due) && !Active(k.phase)
    ensures MailboxOk(k, false, [], due)
  {
    assert k.box.sent <= k.box.sent + [item];
    assert forall i :: 0 <= i < |k.box.sent| ==> (k.box.sent + [item])[i] == k.box.sent[i];
    assert k.box.sent + [] == k.box.sent;
  }

  lemma PostKeepsCaller(s: State, t: State, c: CallerId)
    requires Bounded(s) && Inv(s) && ReaderNext(s, Post, t) && c < |s.callers|
    ensures CallerInv(t, c)
  {
    assert CallerInv(s, c) && CallerInv(s, s.reader.box);
    IdsDistinct(c, s.reader.box);
    if c == s.reader.box {
      if s.callers[c].box.receiving {
        MailboxPosted(s.callers[c], IsLive(s, c), s.reader.item, DueTo(s, c));
      } else {
        MailboxMissed(s.callers[c], IsLive(s, c), s.reader.item, DueTo(s, c));
      }
    }
  }

  lemma DropKeepsCaller(s: State, t: State, c: CallerId)
    requires Bounded(s) && Inv(s) && ReaderNext(s, DropEntry, t) && c < |s.callers|
    ensures CallerInv(t, c)
  {
    assert CallerInv(s, c);
    IdsDistinct(c, s.reader.box);
  }

  /** When the registry is taken, the loss of the connection becomes due to everyone who registered. */
  lemma LossIsDue(s: State, t: State, c: CallerId)
    requires ReaderNext(s, TakeRegistry, t) && c < |s.callers| && CallerInv(s, c)
    ensures DueTo(t, c) == DueTo(s, c) + if s.callers[c].since.Some? then [Failure(ConnectionLost)] else []
  {
    assert Addition(Disconnected, IdOf(c)) == [Failure(ConnectionLost)];
    if s.callers[c].since.Some? {
      DueExtended(s.events, Disconnected, s.callers[c].since.value, IdOf(c));
    }
  }

  lemma TakeRegistryKeepsCaller(s: State, t: State, c: CallerId)
    requires Bounded(s) && Inv(s) && ReaderNext(s, TakeRegistry, t) && c < |s.callers|
    ensures CallerInv(t, c)
  {
    assert CallerInv(s, c);
    LossIsDue(s, t, c);
    NotAddressedUnlessSince(s, c);
  }

  lemma DrainKeepsCaller(s: State, id: U32, t: State, c: CallerId)
    requires Bounded(s) && Inv(s) && ReaderNext(s, DrainOne(id), t) && c < |s.callers|
    ensures CallerInv(t, c)
  {
    var d := s.reader.pending[id];
    assert CallerInv(s, c) && CallerInv(s, d);
    IdsDistinct(c, d);
    if c == d {
      if s.callers[c].box.receiving {
        MailboxPosted(s.callers[c], false, Failure(ConnectionLost), DueTo(s, c));
      } else {
        MailboxMissed(s.callers[c], false, Failure(ConnectionLost), DueTo(s, c));
      }
    }
  }

  lemma ReaderKeepsCaller(s: State, op: ReaderOp, t: State, c: CallerId)
    requires Bounded(s) && Inv(s) && ReaderNext(s, op, t) && c < |s.callers|
    ensures c < |t.callers| && CallerInv(t, c)
  {
    ReaderFrame(s, op, t);
    assert CallerInv(s, c);
    if op.Route? {
      RouteKeepsCaller(s, op.e, t, c);
    } else if op.Post? {
      PostKeepsCaller(s, t, c);
    } else if op.DropEntry? {
      DropKeepsCaller(s, t, c);
    } else if op.TakeRegistry? {
      TakeRegistryKeepsCaller(s, t, c);
    } else if op.DrainOne? {
      DrainKeepsCaller(s, op.id, t, c);
    }
  }

  lemma ReaderKeepsReader(s: State, op: ReaderOp, t: State)
    requires Bounded(s) && Inv(s) && ReaderNext(s, op, t)
    ensures ReaderInv(t) && RegistryInv(t)
  {
    ReaderFrame(s, op, t);
    forall id, d | Owns(s, id, d)
      ensures Owns(t, id, d)
    {
    }
    if op.Post? {
      assert CallerInv(s, s.reader.box);
    }
  }

  lemma ReaderKeepsInv(s: State, op: ReaderOp, t: State)
    requires Bounded(s) && Inv(s) && ReaderNext(s, op, t)
    ensures Inv(t)
  {
    ReaderFrame(s, op, t);
    ReaderKeepsReader(s, op, t);
    forall call | call in t.out.jobs
      ensures JobInv(t, call)
    {
      assert JobInv(s, call);
    }
    forall c | 0 <= c < |t.callers|
      ensures CallerInv(t, c)
    {
      ReaderKeepsCaller(s, op, t, c);
    }
  }

  // ------------------------------------------------------------- every run

  lemma AllocateKeepsInv(x: Option<Pipeline.Transform>, s: State, unary: bool, t: State)
    requires Bounded(t) && Inv(s) && Next(x, s, Allocate(unary), t)
    ensures Inv(t)
  {
    var n := |s.callers|;
    forall id | id in t.registry
      ensures Owns(t, id, t.registry[id])
    {
      assert Owns(s, id, s.registry[id]);
    }
    forall call | call in t.out.jobs
      ensures JobInv(t, call)
    {
      assert JobInv(s, call);
    }
    NotAddressed(t, n);
    forall c | 0 <= c < |t.callers|
      ensures CallerInv(t, c)
    {
      assert c < n ==> CallerInv(s, c) && t.callers[c] == s.callers[c];
    }
  }

  lemma InvKept(x: Option<Pipeline.Transform>, s: State, a: Action, t: State)
    requires Bounded(t) && Inv(s) && Next(x, s, a, t)
    ensures Inv(t)
  {
    match a {
      case Allocate(unary) => AllocateKeepsInv(x, s, unary, t);
      case ByCaller(c, op) =>
        CallerFrame(x, s, c, op, t);
        CallerKeepsInv(x, s, c, op, t);
      case ByReader(op) =>
        ReaderFrame(s, op, t);
        ReaderKeepsInv(s, op, t);
      case BySend(call, op) =>
        CallIsOutStep(x, s.out, call, op, t.out);
        JobsUnchanged(s, t);
        OutStepKeepsInv(s, t);
      case ByWriter(op) =>
        WriterIsOutStep(s.out, op, t.out);
        JobsUnchanged(s, t);
        OutStepKeepsInv(s, t);
      case CleanExit =>
        WriterIsOutStep(s.out, Outbound.Abort, t.out);
        JobsUnchanged(s, t);
        OutStepKeepsInv(s, t);
      case DropHandles => DropHandlesKeepsInv(x, s, t);
    }
  }

  lemma JobsUnchanged(s: State, t: State)
    requires JobsInv(s) && t.out.jobs == s.out.jobs && t.callers == s.callers
    ensures JobsInv(t)
  {
    forall call | call in t.out.jobs
      ensures JobInv(t, call)
    {
      assert JobInv(s, call);
    }
  }

  lemma DropHandlesKeepsInv(x: Option<Pipeline.Transform>, s: State, t: State)
    requires Inv(s) && Next(x, s, DropHandles, t)
    ensures Inv(t)
  {
    JobsUnchanged(s, t);
    forall c | 0 <= c < |t.callers|
      ensures CallerInv(t, c)
    {
      assert CallerInv(s, c);
    }
  }

  lemma CallersOnlyGrow(x: Option<Pipeline.Transform>, s: State, a: Action, t: State)
    requires Next(x, s, a, t)
    ensures |s.callers| <= |t.callers| && s.events <= t.events
  {
    if a.ByCaller? {
      CallerFrame(x, s, a.c, a.op, t);
    } else if a.ByReader? {
      ReaderFrame(s, a.readerOp, t);
    }
  }

  lemma InvStep(x: Option<Pipeline.Transform>, r: Run, i: nat)
    requires IsRun(x, r) && i < |r.actions| && Bounded(r.states[i + 1])
    ensures Bounded(r.states[i]) && (Inv(r.states[i]) ==> Inv(r.states[i + 1]))
  {
    assert Step(x, r, i);
    CallersOnlyGrow(x, r.states[i], r.actions[i], r.states[i + 1]);
    if Inv(r.states[i]) {
      InvKept(x, r.states[i], r.actions[i], r.states[i + 1]);
    }
  }

  lemma {:induction false} InvHolds(x: Option<Pipeline.Transform>, r: Run, i: nat)
    requires IsRun(x, r) && i < |r.states| && Bounded(r.states[i])
    ensures Inv(r.states[i])
    decreases i
  {
    if i > 0 {
      InvStep(x, r, i - 1);
      InvHolds(x, r, i - 1);
    }
  }

  // ------------------------------------------- the sending half on its own

  /** Each step of the client is a step of its sending half or leaves that alone. */
  lemma SendingHalf(x: Option<Pipeline.Transform>, s: State, a: Action, t: State)
    requires Next(x, s, a, t)
    ensures t.out == s.out || exists o: Outbound.Action :: Outbound.Next(x, s.out, o, t.out)
  {
    if a.ByCaller? && (a.op.StartSend? || a.op.StreamSend?) {
      assert Outbound.Next(x, s.out, Outbound.ByCall(a.op.call, Outbound.Call(a.op.job)), t.out);
    } else if a.BySend? {
      assert Outbound.Next(x, s.out, Outbound.ByCall(a.call, a.sendOp), t.out);
    } else if a.ByWriter? {
      assert Outbound.Next(x, s.out, Outbound.Action.ByWriter(a.writerOp), t.out);
    } else if a.CleanExit? {
      assert Outbound.Next(x, s.out, Outbound.Action.ByWriter(Outbound.Abort), t.out);
    }
  }

  lemma BaseInvStep(x: Option<Pipeline.Transform>, r: Run, i: nat)
    requires IsRun(x, r) && i < |r.actions|
    ensures Outbound.BaseInv(r.states[i].out) ==> Outbound.BaseInv(r.states[i + 1].out)
  {
    var s, t := r.states[i].out, r.states[i + 1].out;
    assert Step(x, r, i);
    SendingHalf(x, r.states[i], r.actions[i], r.states[i + 1]);
    if t != s && Outbound.BaseInv(s) {
      var o: Outbound.Action :| Outbound.Next(x, s, o, t);
      OutboundSteps.BaseInvKept(x, s, o, t);
    }
  }

  lemma CounterInvStep(x: Option<Pipeline.Transform>, r: Run, i: nat)
    requires IsRun(x, r) && i < |r.actions| && Pipeline.Fits(x)
    ensures Outbound.BaseInv(r.states[i].out) && Outbound.CounterInv(x, r.states[i].out) ==>
              Outbound.CounterInv(x, r.states[i + 1].out)
  {
    var s, t := r.states[i].out, r.states[i + 1].out;
    assert Step(x, r, i);
    SendingHalf(x, r.states[i], r.actions[i], r.states[i + 1]);
    if t != s && Outbound.BaseInv(s) && Outbound.CounterInv(x, s) {
      var o: Outbound.Action :| Outbound.Next(x, s, o, t);
      OutboundSteps.CounterInvKept(x, s, o, t);
    }
  }

  lemma SendingStarts(x: Option<Pipeline.Transform>, r: Run)
    requires IsRun(x, r)
    ensures Outbound.BaseInv(r.states[0].out) && Outbound.CounterInv(x, r.states[0].out)
  {
    OutboundSteps.InitInv(x, r.states[0].out);
  }

  /** So what the sending half guarantees holds in every state of every client. */
  lemma {:induction false} SendingBaseInv(x: Option<Pipeline.Transform>, r: Run, i: nat)
    requires IsRun(x, r) && i < |r.states|
    ensures Outbound.BaseInv(r.states[i].out)
    decreases i
  {
    if i == 0 {
      SendingStarts(x, r);
    } else {
      SendingBaseInv(x, r, i - 1);
      BaseInvStep(x, r, i - 1);
    }
  }

  lemma {:induction false} SendingCounterInv(x: Option<Pipeline.Transform>, r: Run, i: nat)
    requires IsRun(x, r) && i < |r.states| && Pipeline.Fits(x)
    ensures Outbound.CounterInv(x, r.states[i].out)
    decreases i
  {
    if i == 0 {
      SendingStarts(x, r);
    } else {
      SendingBaseInv(x, r, i - 1);
      SendingCounterInv(x, r, i - 1);
      CounterInvStep(x, r, i - 1);
    }
  }
}
