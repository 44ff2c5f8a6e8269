/**
 Every step of the sending half keeps its invariant: the calls' steps, then the writer's, then every
 run. What a completed message adds to the wire is said by `CompleteBytes`.
 */
module OutboundSteps {
  import opened Wire
  import opened Wrappers
  import opened Pipeline
  import opened Outbound

  // ------------------------------------------------- the calls keep it

  /** A call's step leaves the writer and the wire alone and moves no other call. */
  lemma CallFrame(x: Option<Transform>, s: State, c: Id, op: Op, t: State)
    requires CallNext(x, s, c, op, t)
    ensures c in t.phases && t.phases == s.phases[c := t.phases[c]]
    ensures t.writer == s.writer && t.open == s.open && t.fates == s.fates
    ensures t.wire == s.wire && t.partial == s.partial
    ensures !op.Call? ==> c in s.phases && t.jobs == s.jobs
    ensures !op.Enqueue? ==> t.log == s.log && t.queue == s.queue && t.acks == s.acks && t.kept == s.kept
    ensures s.open ==> t.kept == s.kept
  {
  }

  lemma HoldersAfter(phases: map<Id, Phase>, c: Id, p: Phase)
    ensures |Holders(phases[c := p])|
         == |Holders(phases)| - (if c in phases && HoldsPermit(phases[c]) then 1 else 0) + (if HoldsPermit(p) then 1 else 0)
  {
    var rest := Holders(phases) - {c};
    assert Holders(phases) == if c in Holders(phases) then rest + {c} else rest;
    assert Holders(phases[c := p]) == if HoldsPermit(p) then rest + {c} else rest;
  }

  /** Only the lock holder enters, moves or leaves the locked phases. */
  lemma LockStep(x: Option<Transform>, s: State, c: Id, op: Op, t: State)
    requires LockInv(s) && CallNext(x, s, c, op, t)
    ensures if UnderLock(t.phases[c]) then t.lock == Some(c)
            else t.lock == if s.lock == Some(c) then None else s.lock
    ensures UnderLock(t.phases[c]) ==> s.lock == None || s.lock == Some(c)
  {
  }

  lemma CallKeepsRoom(x: Option<Transform>, s: State, c: Id, op: Op, t: State)
    requires LockInv(s) && CallNext(x, s, c, op, t)
    ensures |t.queue| + |Holders(t.phases)| <= QUEUE_CAPACITY
  {
    CallFrame(x, s, c, op, t);
    HoldersAfter(s.phases, c, t.phases[c]);
  }

  lemma CallKeepsLockInv(x: Option<Transform>, s: State, c: Id, op: Op, t: State)
    requires LockInv(s) && CallNext(x, s, c, op, t)
    ensures LockInv(t)
  {
    CallFrame(x, s, c, op, t);
    LockStep(x, s, c, op, t);
    CallKeepsRoom(x, s, c, op, t);
    assert t.phases.Keys == s.phases.Keys + {c};
  }

  lemma EnqueueKeepsLogInv(x: Option<Transform>, s: State, c: Id, t: State)
    requires LogInv(s) && CallNext(x, s, c, Enqueue, t)
    ensures LogInv(t)
  {
    if s.open {
      assert t.log[|s.fates|..] == s.log[|s.fates|..] + [t.log[|s.log|]];
    }
  }

  lemma {:induction false} WrittenStable(log: seq<Message>, more: seq<Message>, fates: seq<Fate>)
    requires |fates| <= |log|
    ensures WrittenMessages(log + more, fates) == WrittenMessages(log, fates)
  {
    if fates != [] {
      WrittenStable(log, more, fates[..|fates| - 1]);
    }
  }

  lemma WireUntouched(s: State, t: State)
    requires WireInv(s) && t.log == s.log && t.fates == s.fates
    requires t.wire == s.wire && t.partial == s.partial && t.writer == s.writer
    ensures WireInv(t)
  {
  }

  lemma EnqueueKeepsWireInv(x: Option<Transform>, s: State, c: Id, t: State)
    requires WireInv(s) && CallNext(x, s, c, Enqueue, t)
    ensures WireInv(t)
  {
    if s.open {
      OpenEnqueueKeepsWireInv(s, MessageOf(x, s, c), t);
    } else {
      WireUntouched(s, t);
    }
  }

  lemma OpenEnqueueKeepsWireInv(s: State, m: Message, t: State)
    requires WireInv(s) && t == Entered(s, m)
    ensures WireInv(t)
  {
    WrittenStable(s.log, [m], s.fates);
    assert s.partial != [] ==> t.log[Unfinished(s)] == s.log[Unfinished(s)];
  }

  lemma RefusalFlavour(x: Option<Transform>, n: nat, f: Frame, rpcError: bool)
    ensures SealFrame(x, n, f, rpcError).0.Ok? ==> SealFrame(x, n, f, false) == SealFrame(x, n, f, rpcError)
    ensures SealFrame(x, n, f, rpcError).1 == SealFrame(x, n, f, false).1
  {
  }

  lemma SealKeepsCounterInv(x: Option<Transform>, s: State, c: Id, t: State)
    requires Fits(x) && LockInv(s) && CounterInv(x, s) && CallNext(x, s, c, Seal, t)
    ensures CounterInv(x, t)
  {
    assert s.lock == Some(c) && !LockHolderSealed(s);
    SealThenOpen(x, s.counter, s.jobs[c].frame, s.jobs[c].rpcError);
    RefusalFlavour(x, s.counter, s.jobs[c].frame, s.jobs[c].rpcError);
  }

  lemma EnqueueKeepsCounterInv(x: Option<Transform>, s: State, c: Id, t: State)
    requires LockInv(s) && CounterInv(x, s) && CallNext(x, s, c, Enqueue, t)
    ensures CounterInv(x, t)
  {
    assert s.lock == Some(c) && LockHolderSealed(s);
    assert t.lock == Some(c) && !LockHolderSealed(t);
    if s.open {
      assert forall k :: 0 <= k < |s.log| ==> t.log[k] == s.log[k];
    }
  }

  /** Apart from the seal and the enqueue, no call changes what the lock holder has sealed. */
  lemma CallKeepsCounterInv(x: Option<Transform>, s: State, c: Id, op: Op, t: State)
    requires LockInv(s) && CounterInv(x, s) && CallNext(x, s, c, op, t) && !op.Seal? && !op.Enqueue?
    ensures CounterInv(x, t)
  {
    CallFrame(x, s, c, op, t);
    LockStep(x, s, c, op, t);
    assert t.counter == s.counter;
    assert LockHolderSealed(t) <==> LockHolderSealed(s);
  }

  /** A call that is about to enqueue has no message anywhere yet. */
  lemma NotEnteredYet(x: Option<Transform>, s: State, c: Id, t: State)
    requires LockInv(s) && AckInv(s) && CallNext(x, s, c, Enqueue, t)
    ensures c in s.phases && c in s.jobs && c !in s.acks
    ensures forall i :: 0 <= i < |s.log| ==> s.log[i].id != c
    ensures forall i :: 0 <= i < |s.kept| ==> s.kept[i].id != c
  {
    assert !HasEntered(s.phases[c]);
    forall i | 0 <= i < |s.kept|
      ensures s.kept[i].id != c
    {
      assert KeptInv(s, i);
    }
  }

  lemma OpenEnqueueKeepsAckInv(s: State, m: Message, t: State)
    requires LogInv(s) && AckInv(s) && s.open && t == Entered(s, m) && MadeFrom(t, m)
    requires m.id !in s.acks && forall i :: 0 <= i < |s.log| ==> s.log[i].id != m.id
    ensures AckInv(t)
  {
    forall i | 0 <= i < |t.log|
      ensures MadeFrom(t, t.log[i]) && AckedInv(t, i)
    {
      assert i < |s.log| ==> MadeFrom(s, s.log[i]) && AckedInv(s, i);
    }
    forall d | d in t.acks
      ensures SourceInv(t, d)
    {
      if d == m.id {
        assert t.log[|s.log|] == m;
      } else {
        assert SourceInv(s, d);
        assert forall i :: 0 <= i < |s.log| ==> t.log[i] == s.log[i];
      }
    }
    forall d | d in t.phases
      ensures DoneInv(t, d)
    {
      assert d != m.id ==> DoneInv(s, d);
    }
  }

  lemma LateEnqueueKeepsAckInv(s: State, m: Message, keeps: bool, t: State)
    requires AckInv(s) && !s.open && t == EnteredLate(s, m, keeps) && MadeFrom(t, m)
    requires m.id !in s.acks && forall i :: 0 <= i < |s.log| ==> s.log[i].id != m.id
    requires forall i :: 0 <= i < |s.kept| ==> s.kept[i].id != m.id
    ensures AckInv(t)
  {
    forall i | 0 <= i < |t.log|
      ensures MadeFrom(t, t.log[i]) && AckedInv(t, i)
    {
      assert MadeFrom(s, s.log[i]) && AckedInv(s, i);
    }
    forall i | 0 <= i < |t.kept|
      ensures KeptInv(t, i)
    {
      assert i < |s.kept| ==> KeptInv(s, i) && t.kept[i] == s.kept[i];
    }
    forall d | d in t.acks
      ensures SourceInv(t, d)
    {
      LateEnqueueKeepsSource(s, m, keeps, t, d);
    }
    forall d | d in t.phases
      ensures DoneInv(t, d)
    {
      assert d != m.id ==> DoneInv(s, d);
    }
  }

  lemma LateEnqueueKeepsSource(s: State, m: Message, keeps: bool, t: State, d: Id)
    requires AckInv(s) && t == EnteredLate(s, m, keeps) && d in t.acks
    ensures SourceInv(t, d)
  {
    if d == m.id && m.awaitAck {
      assert keeps ==> t.kept[|s.kept|].id == d;
    } else {
      assert SourceInv(s, d);
      if IsKept(s, d) {
        var i :| 0 <= i < |s.kept| && s.kept[i].id == d;
        assert t.kept[i].id == d;
      }
    }
  }

  lemma EnqueueKeepsAckInv(x: Option<Transform>, s: State, c: Id, t: State)
    requires LogInv(s) && LockInv(s) && AckInv(s) && CallNext(x, s, c, Enqueue, t)
    ensures AckInv(t)
  {
    NotEnteredYet(x, s, c, t);
    var m := MessageOf(x, s, c);
    if s.open {
      OpenEnqueueKeepsAckInv(s, m, t);
    } else if t == EnteredLate(s, m, true) {
      LateEnqueueKeepsAckInv(s, m, true, t);
    } else {
      LateEnqueueKeepsAckInv(s, m, false, t);
    }
  }

  lemma CallKeepsMade(x: Option<Transform>, s: State, c: Id, op: Op, t: State, m: Message)
    requires LockInv(s) && CallNext(x, s, c, op, t) && !op.Enqueue? && MadeFrom(s, m)
    ensures MadeFrom(t, m)
  {
    CallFrame(x, s, c, op, t);
    assert c in s.phases && HasEntered(s.phases[c]) ==> HasEntered(t.phases[c]);
    assert op.Call? ==> c !in s.jobs;
  }

  lemma CallKeepsEntered(x: Option<Transform>, s: State, c: Id, op: Op, t: State)
    requires LockInv(s) && EnteredInv(s) && CallNext(x, s, c, op, t) && !op.Enqueue?
    ensures EnteredInv(t)
  {
    CallFrame(x, s, c, op, t);
    forall i | 0 <= i < |t.log|
      ensures MadeFrom(t, t.log[i])
    {
      CallKeepsMade(x, s, c, op, t, s.log[i]);
    }
    assert c in s.phases && HasEntered(s.phases[c]) ==> HasEntered(t.phases[c]);
    assert op.Call? ==> c !in s.jobs;
  }

  lemma CallKeepsAnswers(x: Option<Transform>, s: State, c: Id, op: Op, t: State)
    requires LockInv(s) && AckInv(s) && CallNext(x, s, c, op, t) && !op.Enqueue?
    ensures DoneInv(t, c)
  {
    CallFrame(x, s, c, op, t);
    assert c in s.phases ==> DoneInv(s, c);
  }

  lemma CallKeepsAckInv(x: Option<Transform>, s: State, c: Id, op: Op, t: State)
    requires LockInv(s) && AckInv(s) && CallNext(x, s, c, op, t) && !op.Enqueue?
    ensures AckInv(t)
  {
    CallFrame(x, s, c, op, t);
    CallKeepsEntered(x, s, c, op, t);
    CallKeepsAnswers(x, s, c, op, t);
    forall i | 0 <= i < |t.log|
      ensures AckedInv(t, i)
    {
      assert AckedInv(s, i);
    }
    forall i | 0 <= i < |t.kept|
      ensures KeptInv(t, i)
    {
      assert KeptInv(s, i);
      CallKeepsMade(x, s, c, op, t, s.kept[i]);
    }
    forall d | d in t.acks
      ensures SourceInv(t, d)
    {
      assert SourceInv(s, d);
    }
    forall d | d in t.phases
      ensures DoneInv(t, d)
    {
      assert d in s.phases && d != c ==> DoneInv(s, d);
    }
  }

  lemma CallKeepsBaseInv(x: Option<Transform>, s: State, c: Id, op: Op, t: State)
    requires BaseInv(s) && CallNext(x, s, c, op, t)
    ensures BaseInv(t)
  {
    CallFrame(x, s, c, op, t);
    CallKeepsLockInv(x, s, c, op, t);
    if op.Enqueue? {
      EnqueueKeepsLogInv(x, s, c, t);
      EnqueueKeepsWireInv(x, s, c, t);
      EnqueueKeepsAckInv(x, s, c, t);
    } else {
      CallKeepsAckInv(x, s, c, op, t);
    }
  }

  // ------------------------------------------------ the writer keeps it

  /** The writer's step leaves the calls, the lock, the counter and the history of the queue alone. */
  lemma WriterFrame(s: State, op: WriterOp, t: State)
    requires WriterNext(s, op, t)
    ensures t.jobs == s.jobs && t.phases == s.phases
    ensures t.lock == s.lock && t.counter == s.counter && t.log == s.log && t.kept == s.kept
    ensures |t.queue| <= |s.queue| && (t.open ==> s.open)
    ensures t.acks.Keys == s.acks.Keys + (if Current(s.writer) != [] && s.writer.m.awaitAck
                                             && (op.Discard? || op.Finish? || op.Fail?) then {s.writer.m.id} else {})
  {
  }

  /** The message with the writer is the first unfinished one. */
  lemma CurrentIsNext(s: State)
    requires LogInv(s) && Current(s.writer) != []
    ensures |s.fates| < |s.log| && s.log[|s.fates|] == s.writer.m
  {
    assert s.log[|s.fates|..][0] == s.writer.m;
  }

  lemma WriterKeepsLogInv(s: State, op: WriterOp, t: State)
    requires LogInv(s) && WriterNext(s, op, t)
    ensures LogInv(t)
  {
  }

  lemma WrittenStep(log: seq<Message>, fates: seq<Fate>, fate: Fate)
    requires |fates| < |log|
    ensures WrittenMessages(log, fates + [fate])
         == if fate == Written then WrittenMessages(log, fates) + [log[|fates|]] else WrittenMessages(log, fates)
  {
    assert (fates + [fate])[..|fates|] == fates;
    assert WrittenMessages(log, fates) + [] == WrittenMessages(log, fates);
  }

  /** The bytes of the frames that were written completely. */
  function CompleteBytes(log: seq<Message>, fates: seq<Fate>): seq<Byte>
    requires |fates| <= |log|
  {
    EncodeAll(Frames(WrittenMessages(log, fates)))
  }

  lemma CompleteBytesGrow(log: seq<Message>, fates: seq<Fate>)
    requires |fates| < |log|
    ensures CompleteBytes(log, fates + [Written]) == CompleteBytes(log, fates) + Encode(log[|fates|].frame)
  {
    var written, frame := WrittenMessages(log, fates), log[|fates|].frame;
    WrittenStep(log, fates, Written);
    assert Frames(written + [log[|fates|]]) == Frames(written) + [frame];
    EncodeAllAppend(Frames(written), [frame]);
    EncodeAllSingleton(frame);
  }

  lemma FinishKeepsWireInv(s: State, t: State)
    requires LogInv(s) && WireInv(s) && WriterNext(s, Finish, t)
    ensures WireInv(t)
  {
    CurrentIsNext(s);
    CompleteBytesGrow(s.log, s.fates);
    assert s.wire == CompleteBytes(s.log, s.fates) + s.partial;
    assert s.partial == Encode(s.writer.m.frame);
    assert t.wire == CompleteBytes(t.log, t.fates);
  }

  lemma WriteBytesKeepsWireInv(s: State, k: nat, t: State)
    requires LogInv(s) && WireInv(s) && WriterNext(s, WriteBytes(k), t)
    ensures WireInv(t)
  {
    CurrentIsNext(s);
    PartialGrows(Encode(s.writer.m.frame), s.writer.n, k);
    var bytes := Encode(s.writer.m.frame)[s.writer.n..s.writer.n + k];
    WireExtended(CompleteBytes(s.log, s.fates), s.partial, bytes);
    assert t.wire == s.wire + bytes && t.partial == s.partial + bytes;
  }

  lemma PartialGrows(all: seq<Byte>, n: nat, k: nat)
    requires n + k <= |all|
    ensures all[..n] + all[n..n + k] == all[..n + k] && all[..n + k] <= all
  {
  }

  lemma WireExtended(complete: seq<Byte>, partial: seq<Byte>, bytes: seq<Byte>)
    ensures (complete + partial) + bytes == complete + (partial + bytes)
  {
  }

  lemma CompleteBytesStay(log: seq<Message>, fates: seq<Fate>, fate: Fate)
    requires |fates| < |log| && fate != Written
    ensures CompleteBytes(log, fates + [fate]) == CompleteBytes(log, fates)
  {
    WrittenStep(log, fates, fate);
  }

  lemma DropKeepsWireInv(s: State, op: WriterOp, t: State)
    requires LogInv(s) && WireInv(s) && WriterNext(s, op, t) && (op.Discard? || op.Fail?)
    ensures WireInv(t)
  {
    CurrentIsNext(s);
    CompleteBytesStay(s.log, s.fates, if op.Discard? then Discarded else Failed);
    assert t.wire == CompleteBytes(t.log, t.fates) + t.partial;
    assert op.Fail? ==> Unfinished(t) == |s.fates|;
    assert t.partial == s.partial;
  }

  lemma AbortKeepsWireInv(s: State, t: State)
    requires LogInv(s) && WireInv(s) && WriterNext(s, Abort, t)
    ensures WireInv(t)
  {
    if Current(s.writer) != [] {
      CurrentIsNext(s);
    }
  }

  lemma WriterKeepsWireInv(s: State, op: WriterOp, t: State)
    requires LogInv(s) && WireInv(s) && WriterNext(s, op, t)
    ensures WireInv(t)
  {
    if op.Finish? {
      FinishKeepsWireInv(s, t);
    } else if op.WriteBytes? {
      WriteBytesKeepsWireInv(s, op.k, t);
    } else if op.Discard? || op.Fail? {
      DropKeepsWireInv(s, op, t);
    } else if op.Abort? {
      AbortKeepsWireInv(s, t);
    }
  }

  lemma WriterKeepsCounterInv(x: Option<Transform>, s: State, op: WriterOp, t: State)
    requires CounterInv(x, s) && WriterNext(s, op, t)
    requires Current(s.writer) != [] ==> |s.fates| < |s.log| && s.log[|s.fates|] == s.writer.m
    ensures CounterInv(x, t)
  {
    WriterFrame(s, op, t);
  }

  lemma WriterKeepsAcked(s: State, op: WriterOp, t: State, i: nat)
    requires LogInv(s) && AckInv(s) && WriterNext(s, op, t) && i < |t.log|
    ensures AckedInv(t, i)
  {
    WriterFrame(s, op, t);
    assert AckedInv(s, i);
    if Current(s.writer) != [] {
      CurrentIsNext(s);
    }
    if i >= |s.fates| && s.open {
      UnfinishedIsHeld(s, i);
    }
  }

  /** A message without a fate is with the writer or in the queue. */
  lemma UnfinishedIsHeld(s: State, i: nat)
    requires LogInv(s) && s.open && |s.fates| <= i < |s.log|
    ensures s.log[i] in Current(s.writer) + s.queue
  {
    assert s.log[i] == s.log[|s.fates|..][i - |s.fates|];
  }

  lemma WriterKeepsAnswers(s: State, op: WriterOp, t: State, c: Id)
    requires LogInv(s) && AckInv(s) && WriterNext(s, op, t) && c in t.acks
    ensures SourceInv(t, c)
    ensures c in s.acks && s.acks[c] == Sent(true) ==> t.acks[c] == Sent(true)
  {
    WriterFrame(s, op, t);
    if Current(s.writer) != [] {
      CurrentIsNext(s);
      assert AckedInv(s, |s.fates|);
    }
    assert c in s.acks ==> SourceInv(s, c);
  }

  lemma WriterKeepsAckInv(s: State, op: WriterOp, t: State)
    requires LogInv(s) && AckInv(s) && WriterNext(s, op, t)
    ensures AckInv(t)
  {
    WriterFrame(s, op, t);
    if Current(s.writer) != [] {
      CurrentIsNext(s);
    }
    forall i | 0 <= i < |t.log|
      ensures AckedInv(t, i)
    {
      WriterKeepsAcked(s, op, t, i);
    }
    forall c | c in t.acks
      ensures SourceInv(t, c)
    {
      WriterKeepsAnswers(s, op, t, c);
    }
    forall c | c in t.phases
      ensures DoneInv(t, c)
    {
      assert DoneInv(s, c);
      if c in s.acks {
        WriterKeepsAnswers(s, op, t, c);
      }
    }
  }

  lemma BaseInvKept(x: Option<Transform>, s: State, a: Action, t: State)
    requires BaseInv(s) && Next(x, s, a, t)
    ensures BaseInv(t)
  {
    match a {
      case ByCall(c, op) => CallKeepsBaseInv(x, s, c, op, t);
      case ByWriter(op) =>
        WriterFrame(s, op, t);
        WriterKeepsLogInv(s, op, t);
        WriterKeepsWireInv(s, op, t);
        WriterKeepsAckInv(s, op, t);
    }
  }

  lemma CounterInvKept(x: Option<Transform>, s: State, a: Action, t: State)
    requires Fits(x) && LogInv(s) && LockInv(s) && CounterInv(x, s) && Next(x, s, a, t)
    ensures CounterInv(x, t)
  {
    match a {
      case ByCall(c, op) =>
        if op.Seal? {
          SealKeepsCounterInv(x, s, c, t);
        } else if op.Enqueue? {
          EnqueueKeepsCounterInv(x, s, c, t);
        } else {
          CallKeepsCounterInv(x, s, c, op, t);
        }
      case ByWriter(op) =>
        if Current(s.writer) != [] {
          CurrentIsNext(s);
        }
        WriterKeepsCounterInv(x, s, op, t);
    }
  }

  lemma InitWireInv(s: State)
    requires Init(s)
    ensures LogInv(s) && WireInv(s)
  {
    assert WrittenMessages(s.log, s.fates) == [];
    assert Frames([]) == [];
  }

  lemma InitCallInv(s: State)
    requires Init(s)
    ensures LockInv(s) && AckInv(s)
  {
    assert Holders(s.phases) == {};
  }

  lemma InitInv(x: Option<Transform>, s: State)
    requires Init(s)
    ensures BaseInv(s) && CounterInv(x, s)
  {
    InitWireInv(s);
    InitCallInv(s);
  }

  lemma BaseInvStep(x: Option<Transform>, r: Run, i: nat)
    requires IsRun(x, r) && i < |r.actions|
    ensures BaseInv(r.states[i]) ==> BaseInv(r.states[i + 1])
  {
    assert Step(x, r, i);
    if BaseInv(r.states[i]) {
      BaseInvKept(x, r.states[i], r.actions[i], r.states[i + 1]);
    }
  }

  lemma {:induction false} BaseInvHolds(x: Option<Transform>, r: Run, i: nat)
    requires IsRun(x, r) && i < |r.states|
    ensures BaseInv(r.states[i])
  {
    if i == 0 {
      InitInv(x, r.states[0]);
    } else {
      BaseInvHolds(x, r, i - 1);
      BaseInvStep(x, r, i - 1);
    }
  }

  lemma CounterInvStep(x: Option<Transform>, r: Run, i: nat)
    requires Fits(x) && IsRun(x, r) && i < |r.actions|
    ensures BaseInv(r.states[i]) && CounterInv(x, r.states[i]) ==> CounterInv(x, r.states[i + 1])
  {
    assert Step(x, r, i);
    if BaseInv(r.states[i]) && CounterInv(x, r.states[i]) {
      CounterInvKept(x, r.states[i], r.actions[i], r.states[i + 1]);
    }
  }

  lemma {:induction false} CounterInvHolds(x: Option<Transform>, r: Run, i: nat)
    requires Fits(x) && IsRun(x, r) && i < |r.states|
    ensures CounterInv(x, r.states[i])
  {
    if i == 0 {
      InitInv(x, r.states[0]);
    } else {
      BaseInvHolds(x, r, i - 1);
      CounterInvHolds(x, r, i - 1);
      CounterInvStep(x, r, i - 1);
    }
  }
}
