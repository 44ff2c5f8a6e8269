/**
 The steps of the sending half and of the callers keep the client's invariant.
 */
module ClientCallers {
  import opened Wire
  import opened Wrappers
  import Pipeline
  import opened Demux
  import Outbound
  import OutboundSteps
  import opened ClientCore

  // ------------------------------------------------ the sending half keeps it

  /** All that the client's invariant needs to know of a step of the sending half. */
  ghost predicate OutStep(s: Outbound.State, t: Outbound.State) {
    && (forall call :: call in s.phases ==> call in t.phases)
    && (forall call :: call in s.phases && call in s.jobs ==> call in t.jobs && t.jobs[call] == s.jobs[call])
    && (!s.open ==> !t.open)
    && (!s.open ==> forall call :: Late(s, call) ==> Late(t, call))
  }

  lemma CallIsOutStep(x: Option<Pipeline.Transform>, s: Outbound.State, call: Outbound.Id, op: Outbound.Op, t: Outbound.State)
    requires Outbound.CallNext(x, s, call, op, t)
    ensures OutStep(s, t)
    ensures if op.Call? then t.jobs == s.jobs[call := op.job] && call !in s.phases && Late(t, call) else t.jobs == s.jobs
  {
    OutboundSteps.CallFrame(x, s, call, op, t);
  }

  lemma WriterIsOutStep(s: Outbound.State, op: Outbound.WriterOp, t: Outbound.State)
    requires Outbound.WriterNext(s, op, t)
    ensures OutStep(s, t) && t.jobs == s.jobs
  {
    OutboundSteps.WriterFrame(s, op, t);
  }

  lemma OutStepKeepsInv(s: State, t: State)
    requires Inv(s) && OutStep(s.out, t.out) && t == s.(out := t.out, clean := t.clean)
    requires t.clean == s.clean || !s.handles
    requires JobsInv(t)
    requires s.reader.EndedClean? ==> t.clean
    ensures Inv(t)
  {
    forall c | 0 <= c < |t.callers|
      ensures CallerInv(t, c)
    {
      assert CallerInv(s, c);
    }
  }

  // ---------------------------------------------------- the callers keep it

  /** What a caller's own step leaves alone. */
  lemma CallerFrame(x: Option<Pipeline.Transform>, s: State, c: CallerId, op: CallerOp, t: State)
    requires CallerNext(x, s, c, op, t)
    ensures |t.callers| == |s.callers| && t.callers == s.callers[c := t.callers[c]]
    ensures t.reader == s.reader && t.events == s.events && t.clean == s.clean && t.handles == s.handles
    ensures t.callers[c].unary == s.callers[c].unary && t.callers[c].box.sent == s.callers[c].box.sent
    ensures if op.Register? then t.callers[c].since.Some? else t.callers[c].since == s.callers[c].since
    ensures OutStep(s.out, t.out)
    ensures forall id :: id != IdOf(c) ==>
              && (id in t.registry <==> id in s.registry)
              && (id in s.registry ==> t.registry[id] == s.registry[id])
  {
    if op.StartSend? || op.StreamSend? {
      CallIsOutStep(x, s.out, op.call, Outbound.Call(op.job), t.out);
    }
  }

  lemma OthersKept(x: Option<Pipeline.Transform>, s: State, c: CallerId, op: CallerOp, t: State, d: CallerId)
    requires Bounded(s) && CallerNext(x, s, c, op, t) && d < |s.callers| && d != c && CallerInv(s, d)
    ensures d < |t.callers| && CallerInv(t, d)
  {
    CallerFrame(x, s, c, op, t);
    IdsDistinct(c, d);
  }

  /** The reader never addresses a caller that has not registered. */
  lemma NotAddressed(s: State, c: CallerId)
    requires Bounded(s) && RegistryInv(s) && ReaderInv(s) && c < |s.callers| && s.callers[c].since.None?
    ensures Inflight(s.reader, c) == [] && IdOf(c) !in s.registry
    ensures !(s.reader.Dropping? && s.reader.id == IdOf(c))
  {
    if s.reader.Draining? && IdOf(c) in s.reader.pending {
      IdsDistinct(c, s.reader.pending[IdOf(c)]);
    }
    if s.reader.Dropping? {
      IdsDistinct(c, s.reader.box);
    }
    if IdOf(c) in s.registry {
      IdsDistinct(c, s.registry[IdOf(c)]);
    }
  }

  lemma RegisterKeepsCaller(x: Option<Pipeline.Transform>, s: State, c: CallerId, t: State)
    requires Bounded(s) && Inv(s) && CallerNext(x, s, c, CallerOp.Register, t)
    ensures CallerInv(t, c)
  {
    assert CallerInv(s, c);
    NotAddressed(s, c);
    assert Due(s.events, |s.events|, IdOf(c)) == [];
  }

  lemma UnregisterKeepsCaller(x: Option<Pipeline.Transform>, s: State, c: CallerId, t: State)
    requires Bounded(s) && Inv(s) && CallerNext(x, s, c, CallerOp.Unregister, t)
    ensures CallerInv(t, c)
  {
    assert CallerInv(s, c);
  }

  lemma SendKeepsCaller(x: Option<Pipeline.Transform>, s: State, c: CallerId, op: CallerOp, t: State)
    requires Bounded(s) && Inv(s) && CallerNext(x, s, c, op, t) && (op.StartSend? || op.StreamSend? || op.SendReturns?)
    ensures CallerInv(t, c)
  {
    assert CallerInv(s, c);
    if !op.SendReturns? {
      CallIsOutStep(x, s.out, op.call, Outbound.Call(op.job), t.out);
    }
  }

  lemma ReceiveKeepsCaller(x: Option<Pipeline.Transform>, s: State, c: CallerId, op: CallerOp, t: State)
    requires Bounded(s) && Inv(s) && CallerNext(x, s, c, op, t)
    requires op.Refuse? || op.TakeItem? || op.GiveUp? || op.CloseReceiver?
    ensures CallerInv(t, c)
  {
    assert CallerInv(s, c);
    if op.Refuse? {
      NotAddressed(s, c);
    } else if op.TakeItem? && InRegistry(s, c) {
      StillOpen(s, c);
    }
  }

  /** While a caller is registered and receiving, nothing terminal has been put into its mailbox. */
  lemma StillOpen(s: State, c: CallerId)
    requires Bounded(s) && ReaderInv(s) && c < |s.callers| && CallerInv(s, c)
    requires InRegistry(s, c) && !s.callers[c].phase.Finished?
    ensures forall i :: 0 <= i < |s.callers[c].box.sent| ==> !Terminal(s.callers[c].box.sent[i])
  {
    if s.reader.Dropping? {
      IdsDistinct(c, s.reader.box);
    }
    NothingTerminal(s.callers[c].box.sent, Inflight(s.reader, c));
  }

  lemma NothingTerminal(sent: seq<Item>, inflight: seq<Item>)
    requires TerminalLast(sent + inflight) && !Over(sent + inflight)
    ensures forall i :: 0 <= i < |sent| ==> !Terminal(sent[i])
  {
    forall i | 0 <= i < |sent|
      ensures !Terminal(sent[i])
    {
      assert (sent + inflight)[i] == sent[i];
    }
  }

  lemma CallerKeepsCaller(x: Option<Pipeline.Transform>, s: State, c: CallerId, op: CallerOp, t: State)
    requires Bounded(s) && Inv(s) && CallerNext(x, s, c, op, t)
    ensures c < |t.callers| && CallerInv(t, c)
  {
    CallerFrame(x, s, c, op, t);
    if op.Register? {
      RegisterKeepsCaller(x, s, c, t);
    } else if op.Unregister? {
      UnregisterKeepsCaller(x, s, c, t);
    } else if op.StartSend? || op.StreamSend? || op.SendReturns? {
      SendKeepsCaller(x, s, c, op, t);
    } else {
      ReceiveKeepsCaller(x, s, c, op, t);
    }
  }

  lemma CallerKeepsRegistry(x: Option<Pipeline.Transform>, s: State, c: CallerId, op: CallerOp, t: State)
    requires Bounded(s) && Inv(s) && CallerNext(x, s, c, op, t)
    ensures RegistryInv(t) && ReaderInv(t)
  {
    CallerFrame(x, s, c, op, t);
    assert CallerInv(s, c);
    if op.Register? {
      NotAddressed(s, c);
    }
    forall id, d | Owns(s, id, d)
      ensures Owns(t, id, d)
    {
    }
    if s.reader.Posting? || s.reader.Dropping? {
      IdsDistinct(c, s.reader.box);
    }
  }

  lemma CallerKeepsHandles(x: Option<Pipeline.Transform>, s: State, c: CallerId, op: CallerOp, t: State)
    requires Bounded(s) && Inv(s) && CallerNext(x, s, c, op, t)
    ensures HandlesInv(t)
  {
    CallerFrame(x, s, c, op, t);
  }

  lemma NewJobInv(x: Option<Pipeline.Transform>, s: State, c: CallerId, op: CallerOp, t: State)
    requires Bounded(s) && Inv(s) && CallerNext(x, s, c, op, t) && (op.StartSend? || op.StreamSend?)
    ensures op.call in t.out.jobs && t.out.jobs == s.out.jobs[op.call := op.job] && JobInv(t, op.call)
  {
    CallIsOutStep(x, s.out, op.call, Outbound.Call(op.job), t.out);
    assert CallerInv(s, c);
    IdsDistinct(c, c);
  }

  lemma CallerKeepsJobs(x: Option<Pipeline.Transform>, s: State, c: CallerId, op: CallerOp, t: State)
    requires Bounded(s) && Inv(s) && CallerNext(x, s, c, op, t)
    ensures JobsInv(t)
  {
    CallerFrame(x, s, c, op, t);
    if op.StartSend? || op.StreamSend? {
      NewJobInv(x, s, c, op, t);
    }
    forall call | call in t.out.jobs
      ensures JobInv(t, call)
    {
      assert call in s.out.jobs && s.out.jobs[call] == t.out.jobs[call] ==> JobInv(s, call);
    }
  }

  lemma CallerKeepsInv(x: Option<Pipeline.Transform>, s: State, c: CallerId, op: CallerOp, t: State)
    requires Bounded(s) && Inv(s) && CallerNext(x, s, c, op, t)
    ensures Inv(t)
  {
    CallerFrame(x, s, c, op, t);
    CallerKeepsRegistry(x, s, c, op, t);
    CallerKeepsHandles(x, s, c, op, t);
    CallerKeepsJobs(x, s, c, op, t);
    forall d | 0 <= d < |t.callers|
      ensures CallerInv(t, d)
    {
      assert CallerInv(s, d);
      if d == c {
        CallerKeepsCaller(x, s, c, op, t);
      } else {
        OthersKept(x, s, c, op, t, d);
      }
    }
  }
}
