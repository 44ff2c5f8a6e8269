/**
 What the calls of `transform_send` return, exactly, and that a live connection never comes to a halt.
 */
module OutboundReturns {
  import opened Wire
  import opened Wrappers
  import opened Pipeline
  import opened Outbound
  import opened OutboundSteps
  import opened OutboundTheorems

  /** A call that hears from the writer returns success exactly if its message was written and flushed. */
  lemma AckedReturn(x: Option<Transform>, r: Run, i: nat, c: Id)
    requires IsRun(x, r) && i < |r.actions| && r.actions[i] == ByCall(c, ReceiveAck)
    ensures |r.states[i].fates| <= |r.states[i].log|
    ensures At(r.states[i + 1], c, Done(true)) <==> IsWritten(r.states[i], c)
    ensures At(r.states[i + 1], c, Done(false)) <==> !IsWritten(r.states[i], c)
  {
    assert Step(x, r, i);
    BaseInvHolds(x, r, i);
    TruthfulAck(x, r, i, c);
  }

  /** The call's message entered the queue. */
  predicate InLog(s: State, c: Id) {
    exists k :: 0 <= k < |s.log| && s.log[k].id == c
  }

  /** A call that waits for no answer fails only before its message is in the queue. */
  predicate ReturnInv(s: State, c: Id)
    requires c in s.phases
  {
    c in s.jobs && !s.jobs[c].awaitAck ==>
      && (s.phases[c] == Done(false) ==> !InLog(s, c))
      && (s.open && (s.phases[c].Enqueued? || s.phases[c] == Done(true)) ==> InLog(s, c))
      && !s.phases[c].AwaitingAck?
  }

  lemma NotInLogBefore(s: State, c: Id)
    requires EnteredInv(s) && c in s.phases && !HasEntered(s.phases[c])
    ensures !InLog(s, c)
  {
  }

  lemma CallKeepsReturn(x: Option<Transform>, s: State, c: Id, op: Op, t: State)
    requires LockInv(s) && EnteredInv(s) && CallNext(x, s, c, op, t) && !op.Enqueue?
    requires c in s.phases ==> ReturnInv(s, c)
    ensures c in t.phases && ReturnInv(t, c)
  {
    CallFrame(x, s, c, op, t);
    if c in s.phases && !HasEntered(s.phases[c]) {
      NotInLogBefore(s, c);
    }
  }

  lemma EnqueueKeepsReturn(x: Option<Transform>, s: State, c: Id, t: State)
    requires LockInv(s) && CallNext(x, s, c, Enqueue, t)
    ensures c in t.phases && ReturnInv(t, c)
  {
    if s.open {
      assert t.log[|s.log|].id == c;
    }
  }

  lemma OthersKeepReturn(x: Option<Transform>, s: State, c: Id, op: Op, t: State, d: Id)
    requires LockInv(s) && CallNext(x, s, c, op, t) && d != c && d in s.phases && ReturnInv(s, d)
    ensures d in t.phases && ReturnInv(t, d)
  {
    CallFrame(x, s, c, op, t);
    assert t.phases[d] == s.phases[d] && (d in t.jobs <==> d in s.jobs) && (d in s.jobs ==> t.jobs[d] == s.jobs[d]);
    LogGrows(x, s, c, op, t);
    assert InLog(t, d) <==> InLog(s, d);
  }

  lemma LogGrows(x: Option<Transform>, s: State, c: Id, op: Op, t: State)
    requires CallNext(x, s, c, op, t)
    ensures forall d :: d != c ==> (InLog(t, d) <==> InLog(s, d))
  {
    CallFrame(x, s, c, op, t);
    forall d | d != c
      ensures InLog(t, d) <==> InLog(s, d)
    {
      if InLog(s, d) {
        var k :| 0 <= k < |s.log| && s.log[k].id == d;
        assert k < |t.log| && t.log[k] == s.log[k];
      }
    }
  }

  lemma ReturnInvKept(x: Option<Transform>, s: State, a: Action, t: State, d: Id)
    requires LockInv(s) && EnteredInv(s) && Next(x, s, a, t) && d in t.phases
    requires d in s.phases ==> ReturnInv(s, d)
    ensures ReturnInv(t, d)
  {
    match a {
      case ByCall(c, op) =>
        CallFrame(x, s, c, op, t);
        if d != c {
          OthersKeepReturn(x, s, c, op, t, d);
        } else if op.Enqueue? {
          EnqueueKeepsReturn(x, s, c, t);
        } else {
          CallKeepsReturn(x, s, c, op, t);
        }
      case ByWriter(op) =>
        WriterFrame(s, op, t);
        assert InLog(t, d) <==> InLog(s, d);
    }
  }

  lemma {:induction false} ReturnInvHolds(x: Option<Transform>, r: Run, i: nat, c: Id)
    requires IsRun(x, r) && i < |r.states| && c in r.states[i].phases
    ensures ReturnInv(r.states[i], c)
    decreases i
  {
    if i > 0 {
      assert Step(x, r, i - 1);
      BaseInvHolds(x, r, i - 1);
      if c in r.states[i - 1].phases {
        ReturnInvHolds(x, r, i - 1, c);
      }
      ReturnInvKept(x, r.states[i - 1], r.actions[i - 1], r.states[i], c);
    }
  }

  /**
   A call that waits for no answer: as long as the connection lives, it has returned success exactly
   if its message entered the queue; and it never returns an error once that has happened.
   */
  lemma UnackedReturn(x: Option<Transform>, r: Run, i: nat, c: Id)
    requires IsRun(x, r) && i < |r.states| && c in r.states[i].phases && r.states[i].phases[c].Done?
    requires c in r.states[i].jobs && !r.states[i].jobs[c].awaitAck
    ensures r.states[i].open ==> (r.states[i].phases[c] == Done(true) <==> InLog(r.states[i], c))
    ensures InLog(r.states[i], c) ==> r.states[i].phases[c] == Done(true)
  {
    ReturnInvHolds(x, r, i, c);
  }

  /** Whether the call has given its message to the channel within the first `i` steps. */
  predicate HasSent(r: Run, i: nat, c: Id)
    requires i <= |r.actions|
  {
    exists k :: 0 <= k < i && r.actions[k] == ByCall(c, Enqueue)
  }

  lemma PastSending(x: Option<Transform>, s: State, c: Id, op: Op, t: State)
    requires LockInv(s) && CallNext(x, s, c, op, t) && !op.Enqueue?
    ensures t.phases[c].Enqueued? || t.phases[c].AwaitingAck? || t.phases[c] == Done(true) ==>
              c in s.phases && (s.phases[c].Enqueued? || s.phases[c].AwaitingAck?)
  {
  }

  /** Success always means that the call gave its message to the channel, on a live connection or not. */
  lemma {:induction false} SuccessMeansSent(x: Option<Transform>, r: Run, i: nat, c: Id)
    requires IsRun(x, r) && i < |r.states| && c in r.states[i].phases
    ensures r.states[i].phases[c].Enqueued? || r.states[i].phases[c].AwaitingAck? || r.states[i].phases[c] == Done(true) ==>
              HasSent(r, i, c)
    decreases i
  {
    if i > 0 {
      var s, a, t := r.states[i - 1], r.actions[i - 1], r.states[i];
      assert Step(x, r, i - 1);
      BaseInvHolds(x, r, i - 1);
      if c in s.phases {
        SuccessMeansSent(x, r, i - 1, c);
        assert HasSent(r, i - 1, c) ==> HasSent(r, i, c);
      }
      match a {
        case ByCall(d, op) =>
          CallFrame(x, s, d, op, t);
          if d == c && !op.Enqueue? {
            PastSending(x, s, c, op, t);
          }
        case ByWriter(op) => WriterFrame(s, op, t);
      }
    }
  }

  /** A call gets past the transform exactly with what its payload seals to; else it fails at once, and lets go. */
  lemma SealedExactly(x: Option<Transform>, r: Run, i: nat, c: Id, body: Bytes)
    requires Fits(x) && IsRun(x, r) && i < |r.actions| && r.actions[i] == ByCall(c, Seal)
    ensures c in r.states[i].jobs && c in r.states[i + 1].phases
    ensures var s, t := r.states[i], r.states[i + 1]; var frame := s.jobs[c].frame;
            && (SealsTo(x, s.counter, frame, body) <==>
                  t.phases[c] == Sealed(Frame(frame.header.(length := Truncate(|body|)), body)))
            && (t.phases[c].Sealed? ==> SealsTo(x, s.counter, frame, t.phases[c].frame.body) && t.lock == Some(c))
            && (!t.phases[c].Sealed? ==> t.phases[c] == Done(false) && t.lock == None && t.counter == s.counter)
  {
    assert Step(x, r, i);
    BaseInvHolds(x, r, i);
    var s := r.states[i];
    SealsExactly(x, s.counter, s.jobs[c].frame, s.jobs[c].rpcError, body);
  }

  // ---------------------------------------------- a live connection keeps going

  /** Gets on with a send or with the queue: no new call, no giving up, no failure. */
  predicate GetsOn(a: Action) {
    match a
    case ByCall(_, op) => !op.Call? && !op.Abandon?
    case ByWriter(op) => op.Take? || op.Start? || op.Finish? || (op.WriteBytes? && op.k > 0)
  }

  /** All places of the queue are taken or promised. */
  ghost predicate IsFull(s: State) {
    |s.queue| + |Holders(s.phases)| >= QUEUE_CAPACITY
  }

  /** The action is what the call waits for. */
  ghost predicate Awaits(s: State, c: Id, a: Action)
    requires c in s.phases
  {
    match s.phases[c]
    case Reserving => IsFull(s) && (a.ByWriter? || a.id in Holders(s.phases) || s.lock == Some(a.id))
    case Locking => a.ByCall? && s.lock == Some(a.id)
    case AwaitingAck => a.ByWriter? && c in s.acks && s.acks[c] == Pending
    case _ => false
  }

  /** As long as a message is unfinished the writer can get on. */
  lemma WriterGoesOn(x: Option<Transform>, s: State) returns (a: Action, t: State)
    requires s.open && LogInv(s) && WireInv(s) && |s.fates| < |s.log|
    ensures Next(x, s, a, t) && GetsOn(a) && a.ByWriter?
  {
    assert Current(s.writer) + s.queue == s.log[|s.fates|..] != [];
    var op;
    match s.writer {
      case Idle => op, t := Take, s.(writer := Holding(s.queue[0]), queue := s.queue[1..]);
      case Holding(m) => op, t := Start, s.(writer := Writing(m, 0));
      case Writing(m, n) =>
        var k := |Encode(m.frame)| - n;
        if k == 0 {
          op := Finish;
          t := s.(writer := Idle, fates := s.fates + [Written], partial := [], acks := SendResult(s.acks, m, true));
        } else {
          op := WriteBytes(k);
          var bytes := Encode(m.frame)[n..n + k];
          t := s.(writer := Writing(m, n + k), wire := s.wire + bytes, partial := s.partial + bytes);
        }
    }
    a := Action.ByWriter(op);
  }

  /** A call with a permit or the lock can go on, or the lock holder it waits for can. */
  lemma HolderGoesOn(x: Option<Transform>, s: State, c: Id) returns (a: Action, t: State)
    requires LockInv(s) && c in s.phases && (s.phases[c].Locking? || UnderLock(s.phases[c]))
    ensures Next(x, s, a, t) && GetsOn(a) && a.ByCall?
    ensures a.id == c || (s.phases[c].Locking? && s.lock == Some(a.id))
  {
    if s.phases[c].Locking? && s.lock.None? {
      a, t := ByCall(c, Acquire), s.(lock := Some(c), phases := s.phases[c := Locked]);
    } else {
      var d := if s.phases[c].Locking? then s.lock.value else c;
      assert s.lock == Some(d);
      var op;
      op, t := LockHolderGoesOn(x, s, d);
      a := ByCall(d, op);
    }
  }

  /** When there is no place left, the writer has a message to take or a permit's holder can go on. */
  lemma FullGoesOn(x: Option<Transform>, s: State) returns (a: Action, t: State)
    requires BaseInv(s) && s.open && IsFull(s)
    ensures Next(x, s, a, t) && GetsOn(a)
    ensures a.ByWriter? || a.id in Holders(s.phases) || s.lock == Some(a.id)
  {
    if s.queue != [] {
      assert s.log[|s.fates|..] != [];
      a, t := WriterGoesOn(x, s);
    } else {
      var d :| d in Holders(s.phases);
      a, t := HolderGoesOn(x, s, d);
    }
  }

  /** A call that waits for its answer waits for the writer. */
  lemma PendingIsUnfinished(s: State, c: Id)
    requires BaseInv(s) && s.open && c in s.acks && s.acks[c] == Pending
    ensures |s.fates| < |s.log|
  {
    assert SourceInv(s, c);
    assert !IsKept(s, c);
    var k :| 0 <= k < |s.log| && s.log[k].id == c && s.log[k].awaitAck;
    assert AckedInv(s, k);
  }

  /**
   No deadlock: on a live connection, in every run, each call that has not returned can take its next
   step itself, or waits for something that can happen next: the lock holder's step, the writer's
   progress on the message it waits for, or, when all places of the queue are taken, either of them.
   A call that reserves waits exactly while they are.
   */
  lemma LiveConnectionMoves(x: Option<Transform>, r: Run, i: nat, c: Id) returns (a: Action, t: State)
    requires IsRun(x, r) && i < |r.states| && r.states[i].open
    requires c in r.states[i].phases && !r.states[i].phases[c].Done?
    ensures Next(x, r.states[i], a, t) && GetsOn(a)
    ensures (a.ByCall? && a.id == c) || Awaits(r.states[i], c, a)
    ensures r.states[i].phases[c].Reserving? ==> (a == ByCall(c, Reserve) <==> !IsFull(r.states[i]))
  {
    BaseInvHolds(x, r, i);
    var s := r.states[i];
    match s.phases[c] {
      case Reserving =>
        if IsFull(s) {
          a, t := FullGoesOn(x, s);
        } else {
          a, t := ByCall(c, Reserve), s.(phases := s.phases[c := Locking]);
        }
      case AwaitingAck =>
        assert DoneInv(s, c);
        if s.acks[c] == Pending {
          PendingIsUnfinished(s, c);
          a, t := WriterGoesOn(x, s);
        } else {
          a, t := ByCall(c, ReceiveAck), s.(phases := s.phases[c := Done(s.acks[c] == Sent(true))]);
        }
      case _ => a, t := HolderGoesOn(x, s, c);
    }
  }
}
