/**
 Concrete runs of a client with one caller: its message is sent and written, and then the connection
 ends cleanly with the caller's receiver stranded. `EndToEndRun` continues the same run with a server.
 */
module ClientRuns {
  import opened Wire
  import opened Wrappers
  import Pipeline
  import opened Demux
  import Outbound
  import opened ClientCore
  import opened ClientTheorems

  lemma Extend(x: Option<Pipeline.Transform>, r: Run, a: Action, t: State) returns (q: Run)
    requires IsRun(x, r) && Next(x, r.states[|r.actions|], a, t)
    ensures IsRun(x, q) && q.actions == r.actions + [a] && q.states[|q.actions|] == t
  {
    q := Run(r.states + [t], r.actions + [a]);
    forall i | 0 <= i < |q.actions|
      ensures Step(x, q, i)
    {
      if i < |r.actions| {
        assert Step(x, r, i);
        assert q.states[i] == r.states[i] && q.states[i + 1] == r.states[i + 1] && q.actions[i] == r.actions[i];
      }
    }
  }

  /** The run takes no step of the reader. */
  predicate NoReads(r: Run) {
    forall i :: 0 <= i < |r.actions| ==> !r.actions[i].ByReader?
  }

  /** The first frame of a unary request, or of a stream that the server is to fill. */
  function Opening(unary: bool): Frame {
    Frame(Header(0, 1, MESSAGE_TYPE_REQUEST, if unary then 0 else FLAG_REMOTE_CLOSED), [])
  }

  function OpenJob(unary: bool): Outbound.Job {
    Outbound.Job(Opening(unary), false, false, unary)
  }

  function OpenMessage(unary: bool): Outbound.Message {
    Outbound.Message(0, Opening(unary), Opening(unary), false, unary)
  }

  /** One caller in the given phase, with the connection's sending half in state `out`. */
  function OneCaller(unary: bool, out: Outbound.State, phase: Phase): State {
    State(out, false, [Caller(unary, phase, Mailbox([], 0, true), Some(0), phase.Streaming?)], map[1 := 0], Ready, [], true)
  }

  /** Where a caller is once its message is sent. */
  function Receiving(unary: bool): Phase {
    if unary then Waiting else Streaming
  }

  function OutAt(unary: bool, phase: Outbound.Phase, lock: Option<Outbound.Id>, sent: seq<Outbound.Message>): Outbound.State {
    Outbound.State(map[0 := OpenJob(unary)], map[0 := phase], 0, lock, sent, true, Outbound.Idle, [], map[], sent, [], [], [])
  }

  /** One step of the caller's own call. */
  lemma Send(unary: bool, r: Run, out: Outbound.State, phase: Phase, op: Outbound.Op, next: Outbound.State) returns (q: Run)
    requires IsRun(None, r) && NoReads(r) && r.states[|r.actions|] == OneCaller(unary, out, phase)
    requires !op.Call? && Outbound.CallNext(None, out, 0, op, next)
    ensures IsRun(None, q) && NoReads(q) && q.states[|q.actions|] == OneCaller(unary, next, phase)
  {
    q := Extend(None, r, BySend(0, op), OneCaller(unary, next, phase));
  }

  /** One step of the writer. */
  lemma Write(unary: bool, r: Run, out: Outbound.State, op: Outbound.WriterOp, next: Outbound.State) returns (q: Run)
    requires IsRun(None, r) && NoReads(r) && r.states[|r.actions|] == OneCaller(unary, out, Receiving(unary))
    requires !op.Abort? && Outbound.WriterNext(out, op, next)
    ensures IsRun(None, q) && NoReads(q) && q.states[|q.actions|] == OneCaller(unary, next, Receiving(unary))
  {
    q := Extend(None, r, ByWriter(op), OneCaller(unary, next, Receiving(unary)));
  }

  lemma CallerRegisters(unary: bool) returns (r: Run)
    ensures IsRun(None, r) && NoReads(r)
    ensures r.states[|r.actions|] == OneCaller(unary, OutAt(unary, Outbound.Reserving, None, []), Sending(0))
  {
    var out := Outbound.State(map[], map[], 0, None, [], true, Outbound.Idle, [], map[], [], [], [], []);
    var s0 := State(out, false, [], map[], Ready, [], true);
    r := Run([s0], []);
    var s1 := s0.(callers := [Caller(unary, Allocated, Mailbox([], 0, true), None, false)]);
    r := Extend(None, r, Allocate(unary), s1);
    var s2 := OneCaller(unary, out, Registered);
    assert s2.callers == s1.callers[0 := s2.callers[0]];
    r := Extend(None, r, ByCaller(0, CallerOp.Register), s2);
    var s3 := OneCaller(unary, OutAt(unary, Outbound.Reserving, None, []), Sending(0));
    assert s3.callers == s2.callers[0 := s3.callers[0]];
    r := Extend(None, r, ByCaller(0, StartSend(0, OpenJob(unary))), s3);
  }

  lemma MessageIsSealed(unary: bool) returns (r: Run)
    ensures IsRun(None, r) && NoReads(r)
    ensures r.states[|r.actions|] == OneCaller(unary, OutAt(unary, Outbound.Sealed(Opening(unary)), Some(0), []), Sending(0))
  {
    r := CallerRegisters(unary);
    var reserving := OutAt(unary, Outbound.Reserving, None, []);
    assert Outbound.Holders(reserving.phases) == {};
    var locking := OutAt(unary, Outbound.Locking, None, []);
    r := Send(unary, r, reserving, Sending(0), Outbound.Reserve, locking);
    var locked := OutAt(unary, Outbound.Locked, Some(0), []);
    r := Send(unary, r, locking, Sending(0), Outbound.Acquire, locked);
    var sealed := OutAt(unary, Outbound.Sealed(Opening(unary)), Some(0), []);
    r := Send(unary, r, locked, Sending(0), Outbound.Seal, sealed);
  }

  lemma MessageIsQueued(unary: bool) returns (r: Run)
    ensures IsRun(None, r) && NoReads(r)
    ensures r.states[|r.actions|]
         == OneCaller(unary, OutAt(unary, Outbound.Done(true), None, [OpenMessage(unary)]), Sending(0))
  {
    r := MessageIsSealed(unary);
    var sealed := OutAt(unary, Outbound.Sealed(Opening(unary)), Some(0), []);
    var queued := OutAt(unary, Outbound.Enqueued, Some(0), [OpenMessage(unary)]);
    r := Send(unary, r, sealed, Sending(0), Outbound.Enqueue, queued);
    var sent := OutAt(unary, Outbound.Done(true), None, [OpenMessage(unary)]);
    r := Send(unary, r, queued, Sending(0), Outbound.Unlock, sent);
  }

  lemma MessageIsSent(unary: bool) returns (r: Run)
    ensures IsRun(None, r) && NoReads(r)
    ensures r.states[|r.actions|]
         == OneCaller(unary, OutAt(unary, Outbound.Done(true), None, [OpenMessage(unary)]), Receiving(unary))
  {
    r := MessageIsQueued(unary);
    var sent := OneCaller(unary, OutAt(unary, Outbound.Done(true), None, [OpenMessage(unary)]), Sending(0));
    var s := OneCaller(unary, OutAt(unary, Outbound.Done(true), None, [OpenMessage(unary)]), Receiving(unary));
    assert s.callers == sent.callers[0 := s.callers[0]];
    r := Extend(None, r, ByCaller(0, SendReturns), s);
  }

  function Written(unary: bool): Outbound.State {
    OutAt(unary, Outbound.Done(true), None, [OpenMessage(unary)])
      .(queue := [], wire := Encode(Opening(unary)), fates := [Outbound.Written])
  }

  lemma MessageIsWritten(unary: bool) returns (r: Run)
    ensures IsRun(None, r) && NoReads(r)
    ensures r.states[|r.actions|] == OneCaller(unary, Written(unary), Receiving(unary))
  {
    r := MessageIsSent(unary);
    var m, bytes := OpenMessage(unary), Encode(Opening(unary));
    var o0 := OutAt(unary, Outbound.Done(true), None, [m]);
    var o1 := o0.(writer := Outbound.Holding(m), queue := []);
    r := Write(unary, r, o0, Outbound.Take, o1);
    var o2 := o1.(writer := Outbound.Writing(m, 0));
    r := Write(unary, r, o1, Outbound.Start, o2);
    var o3 := o2.(writer := Outbound.Writing(m, 10), wire := bytes, partial := bytes);
    assert bytes[0..10] == bytes;
    r := Write(unary, r, o2, Outbound.WriteBytes(10), o3);
    r := Write(unary, r, o3, Outbound.Finish, Written(unary));
  }

  /** The writer's clean end, seen by the reader. */
  lemma EndCleanly(r: Run, s: State) returns (q: Run)
    requires IsRun(None, r) && r.states[|r.actions|] == s
    requires !s.handles && s.out.writer.Idle? && s.out.queue == [] && s.reader.Ready?
    ensures IsRun(None, q)
    ensures q.states[|q.actions|] == s.(clean := true, out := Outbound.Close(s.out, []), reader := EndedClean)
  {
    var t := s.(clean := true, out := Outbound.Close(s.out, []));
    q := Extend(None, r, CleanExit, t);
    q := Extend(None, q, ByReader(SeeWriter), t.(reader := EndedClean));
  }

  /**
   The clean exit does strand a receiver: a stream is opened, its sender and the client are
   dropped, the writer returns without an error, and the registry still holds the receiver's
   mailbox when the connection task ends.
   */
  lemma CleanExitStrands() returns (r: Run)
    ensures IsRun(None, r)
    ensures var s := r.states[|r.actions|]; s.reader.EndedClean? && |s.callers| == 1 && Stranded(s, 0)
  {
    r := MessageIsWritten(false);
    var s := OneCaller(false, Written(false), Streaming).(handles := false);
    r := Extend(None, r, DropHandles, s);
    r := EndCleanly(r, s);
    assert InRegistry(s, 0);
  }
}
