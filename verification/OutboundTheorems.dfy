/**
 What the sending half guarantees in every run, and what the peer's reader makes of the bytes.
 */
module OutboundTheorems {
  import opened Wire
  import opened Wrappers
  import opened Pipeline
  import AsyncFraming
  import opened Outbound
  import opened OutboundSteps

  /** The messages of which something is on the wire: the written ones, and perhaps one more. */
  function Carried(s: State): seq<Message>
    requires |s.fates| <= |s.log| && (s.partial != [] ==> Unfinished(s) < |s.log|)
  {
    WrittenMessages(s.log, s.fates) + (if s.partial == [] then [] else [s.log[Unfinished(s)]])
  }

  /**
   Wire integrity: what is on the wire is the complete frames of the written messages in queue
   order, followed by at most one more frame, whole or in part; discarded messages leave no trace.
   */
  lemma WireIntegrity(x: Option<Transform>, r: Run, i: nat)
    requires IsRun(x, r) && i < |r.states|
    ensures var s := r.states[i];
            && |s.fates| <= |s.log| && (s.partial != [] ==> Unfinished(s) < |s.log|)
            && s.wire == EncodeAll(Frames(WrittenMessages(s.log, s.fates))) + s.partial
            && s.wire <= EncodeAll(Frames(Carried(s)))
            && (s.partial != [] ==> s.writer.Writing? || s.writer.Gone?)
  {
    BaseInvHolds(x, r, i);
    CarriedCoversWire(r.states[i]);
  }

  lemma CarriedCoversWire(s: State)
    requires LogInv(s) && WireInv(s)
    ensures s.wire <= EncodeAll(Frames(Carried(s)))
  {
    var written := WrittenMessages(s.log, s.fates);
    if s.partial == [] {
      assert Carried(s) == written;
    } else {
      var m := s.log[Unfinished(s)];
      assert Frames(Carried(s)) == Frames(written) + [m.frame];
      EncodeAllAppend(Frames(written), [m.frame]);
      EncodeAllSingleton(m.frame);
    }
  }

  lemma ClosedStaysClosed(x: Option<Transform>, r: Run, i: nat)
    requires IsRun(x, r) && i < |r.actions| && !r.states[i].open && r.states[i].writer.Gone?
    ensures !r.states[i + 1].open && r.states[i + 1].wire == r.states[i].wire
    ensures r.states[i + 1].fates == r.states[i].fates
  {
    assert Step(x, r, i);
    var a := r.actions[i];
    if a.ByCall? {
      CallFrame(x, r.states[i], a.id, a.op, r.states[i + 1]);
    }
  }

  lemma ClosedMeansGone(x: Option<Transform>, r: Run, i: nat)
    requires IsRun(x, r) && i < |r.states|
    ensures r.states[i].open <==> !r.states[i].writer.Gone?
  {
    BaseInvHolds(x, r, i);
  }

  /** Once the writer is gone nothing is ever written again. */
  lemma {:induction false} NothingAfterClose(x: Option<Transform>, r: Run, i: nat, j: nat)
    requires IsRun(x, r) && i <= j < |r.states| && !r.states[i].open
    ensures !r.states[j].open && r.states[j].wire == r.states[i].wire && r.states[j].fates == r.states[i].fates
    decreases j
  {
    if i < j {
      NothingAfterClose(x, r, i, j - 1);
      ClosedMeansGone(x, r, j - 1);
      ClosedStaysClosed(x, r, j - 1);
    }
  }

  /**
   A discard never closes the connection: not a byte goes out, the next message has its turn, and the
   caller who waited hears of the failure.
   */
  lemma DiscardKeepsConnection(x: Option<Transform>, r: Run, i: nat)
    requires IsRun(x, r) && i < |r.actions| && r.actions[i] == ByWriter(Discard)
    ensures var s, t := r.states[i], r.states[i + 1];
            && s.open && t.open && t.writer.Idle? && t.wire == s.wire && t.queue == s.queue && t.partial == []
            && |s.fates| < |s.log| && t.log == s.log && t.fates == s.fates + [Discarded]
            && (s.log[|s.fates|].awaitAck ==> s.log[|s.fates|].id in t.acks && t.acks[s.log[|s.fates|].id] == Sent(false))
  {
    assert Step(x, r, i);
    BaseInvHolds(x, r, i);
    CurrentIsNext(r.states[i]);
  }

  lemma HistoriesGrow(x: Option<Transform>, r: Run, i: nat)
    requires IsRun(x, r) && i < |r.actions|
    ensures r.states[i].log <= r.states[i + 1].log && r.states[i].fates <= r.states[i + 1].fates
    ensures r.states[i].wire <= r.states[i + 1].wire
  {
    assert Step(x, r, i);
    match r.actions[i] {
      case ByCall(c, op) => CallFrame(x, r.states[i], c, op, r.states[i + 1]);
      case ByWriter(op) => WriterFrame(r.states[i], op, r.states[i + 1]);
    }
  }

  /** Histories only grow: a message keeps its place and, once it has one, its fate. */
  lemma {:induction false} FatesAreFinal(x: Option<Transform>, r: Run, i: nat, j: nat)
    requires IsRun(x, r) && i <= j < |r.states|
    ensures r.states[i].log <= r.states[j].log && r.states[i].fates <= r.states[j].fates
    ensures r.states[i].wire <= r.states[j].wire
    decreases j
  {
    if i < j {
      FatesAreFinal(x, r, i, j - 1);
      HistoriesGrow(x, r, j - 1);
    }
  }

  /**
   Conservation: every message that entered the queue is written, discarded, failed, with the
   writer, queued, or dropped with the closed queue, and in exactly one of these ways; at most one
   message fails, and it is the last one the writer touched.
   */
  lemma EveryMessageAccounted(x: Option<Transform>, r: Run, i: nat)
    requires IsRun(x, r) && i < |r.states|
    ensures var s := r.states[i];
            && |s.fates| <= |s.log|
            && (s.open ==> s.log == s.log[..|s.fates|] + Current(s.writer) + s.queue)
            && (!s.open ==> Current(s.writer) + s.queue == [])
            && (forall k :: 0 <= k < |s.fates| && s.fates[k] == Failed ==> k == |s.fates| - 1 && !s.open)
            && (forall k, l :: 0 <= k < l < |s.log| ==> s.log[k].id != s.log[l].id)
  {
    BaseInvHolds(x, r, i);
    var s := r.states[i];
    assert s.log == s.log[..|s.fates|] + s.log[|s.fates|..];
  }

  lemma {:induction false} WrittenIsCarried(log: seq<Message>, fates: seq<Fate>, k: nat)
    requires k < |fates| <= |log| && fates[k] == Written
    ensures log[k] in WrittenMessages(log, fates)
    decreases |fates|
  {
    var n := |fates| - 1;
    if k < n {
      WrittenIsCarried(log, fates[..n], k);
    }
  }

  /**
   Truthful acknowledgements: a send that waited for its result and returned success has its whole
   frame on the wire; and as soon as a result is there, it is success exactly if that is so.
   */
  lemma TruthfulAck(x: Option<Transform>, r: Run, i: nat, c: Id)
    requires IsRun(x, r) && i < |r.states| && c in r.states[i].jobs && r.states[i].jobs[c].awaitAck
    ensures r.states[i].phases.Keys == r.states[i].jobs.Keys && |r.states[i].fates| <= |r.states[i].log|
    ensures r.states[i].phases[c] == Done(true) ==> IsWritten(r.states[i], c)
    ensures var s := r.states[i];
            c in s.acks && s.acks[c] != Pending ==> (s.acks[c] == Sent(true) <==> IsWritten(s, c))
  {
    BaseInvHolds(x, r, i);
    var s := r.states[i];
    assert DoneInv(s, c);
    if c in s.acks {
      assert SourceInv(s, c);
      if s.acks[c] == Sent(true) {
        var k :| 0 <= k < |s.log| && s.log[k].id == c && s.log[k].awaitAck;
        assert AckedInv(s, k);
      }
      if IsWritten(s, c) {
        var k :| 0 <= k < |s.fates| && s.log[k].id == c && s.fates[k] == Written;
        assert AckedInv(s, k);
      }
    }
  }

  /** The call's message was written and flushed; so its frame is among those on the wire. */
  ghost predicate IsWritten(s: State, c: Id)
    requires |s.fates| <= |s.log|
  {
    exists k :: 0 <= k < |s.fates| && s.log[k].id == c && s.fates[k] == Written
  }

  /** Whoever is about to enqueue finds room, so nobody waits for capacity while holding the lock. */
  lemma LockHolderHasRoom(x: Option<Transform>, r: Run, i: nat, c: Id)
    requires IsRun(x, r) && i < |r.states| && c in r.states[i].phases
    requires r.states[i].phases[c].Locked? || r.states[i].phases[c].Sealed?
    ensures |r.states[i].queue| < QUEUE_CAPACITY && r.states[i].lock == Some(c)
  {
    BaseInvHolds(x, r, i);
    assert c in Holders(r.states[i].phases);
    assert |Holders(r.states[i].phases)| >= 1;
  }

  /**
   Lockstep: while the connection lives, every step of the outbound counter but perhaps the last is
   a message in the queue's history, the k-th of them sealed at counter k; none is ever discarded.
   */
  lemma Lockstep(x: Option<Transform>, r: Run, i: nat)
    requires x.Some? && Fits(x) && IsRun(x, r) && i < |r.states|
    ensures var s := r.states[i];
            && |s.fates| <= |s.log| && s.phases.Keys == s.jobs.Keys
            && (s.open ==> s.counter == |s.log| + if LockHolderSealed(s) then 1 else 0)
            && (forall k :: 0 <= k < |s.log| ==> s.log[k].id in s.jobs && s.log[k].plain == s.jobs[s.log[k].id].frame)
            && (forall k :: 0 <= k < |s.log| ==> SealedAt(x, k, s.log[k].plain, s.log[k].frame))
            && (forall k :: 0 <= k < |s.fates| ==> s.fates[k] != Discarded)
  {
    BaseInvHolds(x, r, i);
    CounterInvHolds(x, r, i);
  }

  /** The size check after the seal never fires: a refused payload never costs the counter a step. */
  lemma RefusalCostsNothing(x: Option<Transform>, r: Run, i: nat, c: Id)
    requires Fits(x) && IsRun(x, r) && i < |r.actions| && r.actions[i] == ByCall(c, Seal)
    ensures c in r.states[i + 1].phases
    ensures r.states[i + 1].phases[c].Done? ==> r.states[i + 1].counter == r.states[i].counter
    ensures r.states[i + 1].phases[c].Sealed? ==>
              && WellFormed(r.states[i + 1].phases[c].frame)
              && !Oversized(|r.states[i + 1].phases[c].frame.body|)
  {
    BaseInvHolds(x, r, i);
    var s := r.states[i];
    assert Step(x, r, i);
    SealThenOpen(x, s.counter, s.jobs[c].frame, s.jobs[c].rpcError);
  }

  /** The lock holder can always go on by itself: there is no await between lock and unlock. */
  lemma LockHolderGoesOn(x: Option<Transform>, s: State, c: Id) returns (op: Op, t: State)
    requires LockInv(s) && c in s.phases && UnderLock(s.phases[c])
    ensures (op.Seal? || op.Enqueue? || op.Unlock?) && CallNext(x, s, c, op, t)
  {
    if s.phases[c].Locked? {
      op := Seal;
      var (r, next) := SealFrame(x, s.counter, s.jobs[c].frame, s.jobs[c].rpcError);
      t := if r.Ok? then s.(counter := next, phases := s.phases[c := Sealed(r.value)])
           else s.(counter := next, lock := None, phases := s.phases[c := Done(false)]);
    } else if s.phases[c].Sealed? {
      op := Enqueue;
      var m := MessageOf(x, s, c);
      t := if s.open then Entered(s, m) else EnteredLate(s, m, true);
    } else {
      op := Unlock;
      t := s.(lock := None, phases := s.phases[c := if s.jobs[c].awaitAck then AwaitingAck else Done(true)]);
    }
  }

  /** Waits for the answer to a message that was sent after the receiver was gone and that the channel keeps. */
  predicate StrandedSend(s: State, c: Id) {
    At(s, c, AwaitingAck) && IsKept(s, c)
  }

  /** After the writer is gone a result channel is answered or hung up, unless the channel keeps its message. */
  lemma ClosedAnswersAll(s: State, c: Id)
    requires BaseInv(s) && !s.open && c in s.acks
    ensures s.acks[c] == Pending <==> IsKept(s, c)
  {
    assert SourceInv(s, c);
    if IsKept(s, c) {
      var i :| 0 <= i < |s.kept| && s.kept[i].id == c;
      assert KeptInv(s, i);
    } else if s.acks[c] != HungUp {
      var k :| 0 <= k < |s.log| && s.log[k].id == c && s.log[k].awaitAck;
      assert AckedInv(s, k);
    }
  }

  /**
   Once the queue is closed, a call that has not returned can take its next step, other than giving
   up, or is waiting for a lock whose holder can; unless it is a stranded send.
   */
  lemma ClosedQueueFreesCalls(x: Option<Transform>, s: State, c: Id) returns (d: Id, op: Op, t: State)
    requires BaseInv(s) && !s.open && c in s.phases && !s.phases[c].Done? && !StrandedSend(s, c)
    ensures CallNext(x, s, d, op, t) && !op.Call? && !op.Abandon?
    ensures d == c || (s.phases[c].Locking? && s.lock == Some(d))
  {
    d := c;
    assert DoneInv(s, c);
    if s.phases[c].Reserving? {
      op, t := ReserveFails, s.(phases := s.phases[c := Done(false)]);
    } else if s.phases[c].AwaitingAck? {
      ClosedAnswersAll(s, c);
      op, t := ReceiveAck, s.(phases := s.phases[c := Done(s.acks[c] == Sent(true))]);
    } else if s.phases[c].Locking? && s.lock.None? {
      op, t := Acquire, s.(lock := Some(c), phases := s.phases[c := Locked]);
    } else {
      if s.phases[c].Locking? {
        d := s.lock.value;
        assert s.lock == Some(d);
      }
      op, t := LockHolderGoesOn(x, s, d);
    }
  }

  lemma StrandedCallGivesUp(x: Option<Transform>, s: State, c: Id, op: Op, t: State)
    requires At(s, c, AwaitingAck) && c in s.acks && s.acks[c] == Pending && CallNext(x, s, c, op, t)
    ensures op == Abandon && At(t, c, Done(false))
  {
  }

  lemma StaysKept(x: Option<Transform>, s: State, a: Action, t: State, c: Id)
    requires Next(x, s, a, t) && IsKept(s, c)
    ensures IsKept(t, c)
  {
    var i :| 0 <= i < |s.kept| && s.kept[i].id == c;
    match a {
      case ByCall(d, op) =>
        CallFrame(x, s, d, op, t);
        assert t.kept[i] == s.kept[i];
      case ByWriter(op) =>
        WriterFrame(s, op, t);
        assert t.kept[i] == s.kept[i];
    }
  }

  /** All a stranded send can do is give up; and whatever else happens, it stays stranded until it does. */
  lemma StrandedSendStays(x: Option<Transform>, r: Run, i: nat, c: Id)
    requires IsRun(x, r) && i < |r.actions| && StrandedSend(r.states[i], c)
    ensures if r.actions[i] == ByCall(c, Abandon) then At(r.states[i + 1], c, Done(false))
            else StrandedSend(r.states[i + 1], c)
  {
    assert Step(x, r, i);
    var s, a, t := r.states[i], r.actions[i], r.states[i + 1];
    StaysKept(x, s, a, t, c);
    match a {
      case ByCall(d, op) =>
        if d == c {
          BaseInvHolds(x, r, i);
          StrandedIsPending(s, c);
          StrandedCallGivesUp(x, s, c, op, t);
        } else {
          CallFrame(x, s, d, op, t);
        }
      case ByWriter(op) => WriterFrame(s, op, t);
    }
  }

  lemma StrandedIsPending(s: State, c: Id)
    requires BaseInv(s) && StrandedSend(s, c)
    ensures c in s.acks && s.acks[c] == Pending
  {
    assert DoneInv(s, c) && !s.open;
    ClosedAnswersAll(s, c);
  }

  /** A step, other than giving up, of the call or of the lock holder it waits for. */
  ghost predicate Progress(x: Option<Transform>, s: State, c: Id, d: Id, op: Op, t: State) {
    && CallNext(x, s, d, op, t) && !op.Call? && !op.Abandon?
    && (d == c || (c in s.phases && s.phases[c].Locking? && s.lock == Some(d)))
  }

  ghost predicate CanGoOn(x: Option<Transform>, s: State, c: Id) {
    exists d, op, t :: Progress(x, s, c, d, op, t)
  }

  lemma StuckIsStranded(x: Option<Transform>, s: State, c: Id)
    requires BaseInv(s) && !s.open && c in s.phases && !s.phases[c].Done?
    ensures StrandedSend(s, c) <==> !CanGoOn(x, s, c)
  {
    if StrandedSend(s, c) {
      StrandedIsPending(s, c);
      forall d, op, t | Progress(x, s, c, d, op, t)
        ensures false
      {
        StrandedCallGivesUp(x, s, c, op, t);
      }
    } else {
      var d, op, t := ClosedQueueFreesCalls(x, s, c);
      assert Progress(x, s, c, d, op, t);
    }
  }

  /**
   No stranded sender, with its exact condition: in every run, a call that has not returned when the
   queue is closed is stuck, other than by giving up, exactly if it is a stranded send.
   */
  lemma StrandedSendExactly(x: Option<Transform>, r: Run, i: nat, c: Id)
    requires IsRun(x, r) && i < |r.states| && !r.states[i].open
    requires c in r.states[i].phases && !r.states[i].phases[c].Done?
    ensures StrandedSend(r.states[i], c) <==> !CanGoOn(x, r.states[i], c)
  {
    BaseInvHolds(x, r, i);
    StuckIsStranded(x, r.states[i], c);
  }

  function LateSendActions(job: Job): seq<Action> {
    [ByCall(0, Call(job)), ByCall(0, Reserve), ByWriter(Abort), ByCall(0, Acquire), ByCall(0, Seal),
     ByCall(0, Enqueue), ByCall(0, Unlock)]
  }

  const NEW_STATE := State(map[], map[], 0, None, [], true, Idle, [], map[], [], [], [], [])

  lemma CloseAfterReservation(x: Option<Transform>, job: Job) returns (states: seq<State>, last: State)
    requires job.frame.header.length == Truncate(|job.frame.body|)
    ensures |states| == 3 && Init(states[0]) && last == Close(states[2], [])
    ensures last.jobs == map[0 := job] && last.phases == map[0 := Locking] && last.acks == map[]
    ensures last.lock == None && last.counter == 0 && last.kept == []
    ensures forall k :: 0 <= k < 3 ==> Next(x, states[k], LateSendActions(job)[k], (states + [last])[k + 1])
  {
    var reserving := NEW_STATE.(jobs := map[0 := job], phases := map[0 := Reserving]);
    assert Holders(reserving.phases) == {};
    var locking := reserving.(phases := map[0 := Locking]);
    states, last := [NEW_STATE, reserving, locking], Close(locking, []);
  }

  lemma SendLate(x: Option<Transform>, job: Job, s: State) returns (states: seq<State>)
    requires job.awaitAck && SealFrame(x, 0, job.frame, job.rpcError).0.Ok?
    requires s.jobs == map[0 := job] && s.phases == map[0 := Locking] && s.lock == None && s.counter == 0
    requires !s.open && s.kept == []
    ensures |states| == 5 && states[0] == s && StrandedSend(states[4], 0)
    ensures forall k :: 0 <= k < 4 ==> Next(x, states[k], LateSendActions(job)[3 + k], states[k + 1])
  {
    var (sealed, next) := SealFrame(x, 0, job.frame, job.rpcError);
    var locked := s.(lock := Some(0), phases := s.phases[0 := Locked]);
    var ready := locked.(counter := next, phases := locked.phases[0 := Sealed(sealed.value)]);
    var entered := EnteredLate(ready, MessageOf(x, ready, 0), true);
    var waiting := entered.(lock := None, phases := entered.phases[0 := AwaitingAck]);
    states := [s, locked, ready, entered, waiting];
    assert waiting.kept[0].id == 0;
  }

  /** Such runs exist, with any transform: whatever is sent, if the connection ends after the reservation. */
  lemma LateSendStrands(x: Option<Transform>, job: Job) returns (r: Run)
    requires job.awaitAck && job.frame.header.length == Truncate(|job.frame.body|)
    requires SealFrame(x, 0, job.frame, job.rpcError).0.Ok?
    ensures IsRun(x, r) && r.actions == LateSendActions(job)
    ensures StrandedSend(r.states[|r.actions|], 0)
  {
    var before, closed := CloseAfterReservation(x, job);
    var after := SendLate(x, job, closed);
    r := Run(before + after, LateSendActions(job));
    forall k | 0 <= k < 7
      ensures Step(x, r, k)
    {
      assert k < 3 ==> r.states[k + 1] == (before + [closed])[k + 1];
      assert k >= 3 ==> r.states[k] == after[k - 3] && r.states[k + 1] == after[k - 2];
    }
  }

  // -------------------------------------------------------- the peer's reader

  lemma {:induction false} WrittenWithoutDiscards(log: seq<Message>, fates: seq<Fate>)
    requires |fates| <= |log|
    requires forall k :: 0 <= k < |fates| ==> fates[k] == Written
    ensures WrittenMessages(log, fates) == log[..|fates|]
  {
    if fates != [] {
      var k := |fates| - 1;
      WrittenWithoutDiscards(log, fates[..k]);
      assert log[..k] + [log[k]] == log[..|fates|];
    }
  }

  lemma {:induction false} WrittenComesFromLog(log: seq<Message>, fates: seq<Fate>)
    requires |fates| <= |log|
    ensures forall i :: 0 <= i < |WrittenMessages(log, fates)| ==> WrittenMessages(log, fates)[i] in log
  {
    if fates != [] {
      WrittenComesFromLog(log, fates[..|fates| - 1]);
    }
  }

  /** No message was discarded: none could be, or the transform forbids it. */
  predicate NoneDiscarded(s: State) {
    forall k :: 0 <= k < |s.fates| ==> s.fates[k] != Discarded
  }

  lemma WrittenUpToFailed(log: seq<Message>, fates: seq<Fate>, n: nat)
    requires n <= |fates| <= |log| && forall k :: 0 <= k < n ==> fates[k] == Written
    requires n < |fates| ==> n == |fates| - 1 && fates[n] == Failed
    ensures WrittenMessages(log, fates) == log[..n]
  {
    WrittenWithoutDiscards(log, fates[..n]);
    if n == |fates| {
      assert fates[..n] == fates;
    } else {
      assert WrittenMessages(log, fates) == WrittenMessages(log, fates[..n]) + [];
    }
  }

  lemma WrittenUpToUnfinished(s: State)
    requires LogInv(s) && WireInv(s) && NoneDiscarded(s)
    ensures Unfinished(s) <= |s.log| && WrittenMessages(s.log, s.fates) == s.log[..Unfinished(s)]
  {
    WrittenUpToFailed(s.log, s.fates, Unfinished(s));
  }

  /** Then what the wire carries is exactly a prefix of the queue's history. */
  lemma CarriedIsPrefix(s: State)
    requires LogInv(s) && WireInv(s) && NoneDiscarded(s)
    ensures Carried(s) <= s.log
  {
    var n := Unfinished(s);
    WrittenUpToUnfinished(s);
    assert s.partial != [] ==> s.log[..n] + [s.log[n]] == s.log[..n + 1];
  }

  lemma CarriedSealed(x: Option<Transform>, s: State)
    requires Fits(x) && LogInv(s) && WireInv(s) && CounterInv(x, s)
    ensures SealedInOrder(x, 0, Plains(Carried(s)), Frames(Carried(s)))
  {
    var ms := Carried(s);
    if x.Some? {
      CarriedIsPrefix(s);
    } else {
      WrittenComesFromLog(s.log, s.fates);
    }
    forall k | 0 <= k < |ms|
      ensures SealedAt(x, if x.Some? then 0 + k else 0, ms[k].plain, ms[k].frame)
    {
      if x.Some? {
        assert ms[k] == s.log[k];
      } else {
        assert ms[k] in s.log;
      }
    }
  }

  /** What the peer's read loop makes of `n` bytes of well-formed frames: a prefix of them. */
  lemma {:induction false} ReadsAPrefix(fs: seq<Frame>, n: nat) returns (m: nat)
    requires AllWellFormed(fs) && n <= |EncodeAll(fs)|
    requires forall k :: 0 <= k < |fs| ==> !Oversized(fs[k].header.length)
    ensures m <= |fs| && |EncodeAll(fs[..m])| <= n
    ensures m < |fs| ==> n < |EncodeAll(fs[..m])| + |Encode(fs[m])|
    ensures AsyncFraming.Expected(fs, n)
         == seq(m, k requires 0 <= k < m => AsyncFraming.Message(fs[k])) + [AsyncFraming.Disconnect]
  {
    if fs == [] || n < |Encode(fs[0])| {
      m := 0;
    } else {
      var rest := ReadsAPrefix(fs[1..], n - |Encode(fs[0])|);
      m := rest + 1;
      assert fs[..m][1..] == fs[1..][..rest];
    }
  }

  /** The first `m` frames on the wire, as the peer's read loop delivers them. */
  function Deliveries(ms: seq<Message>): seq<AsyncFraming.Event> {
    seq(|ms|, k requires 0 <= k < |ms| => AsyncFraming.Message(ms[k].frame))
  }

  /**
   The peer stays in step: whatever part of the wire it has received, its read loop meets only
   frames within the size limit and opens them at counters 0, 1, ... to the payloads that were
   given to `transform_send`, in queue order; and what was written completely is among them.
   */
  lemma PeerOpensInOrder(x: Option<Transform>, r: Run, i: nat, n: nat) returns (m: nat)
    requires Fits(x) && IsRun(x, r) && i < |r.states| && n <= |r.states[i].wire|
    ensures var s := r.states[i];
            && |s.fates| <= |s.log| && (s.partial != [] ==> Unfinished(s) < |s.log|)
            && m <= |Carried(s)|
            && AsyncFraming.Receive(s.wire[..n]) == Deliveries(Carried(s)[..m]) + [AsyncFraming.Disconnect]
            && OpenAll(x, 0, Frames(Carried(s)[..m])) == Some(Plains(Carried(s)[..m]))
            && (n == |s.wire| ==> |WrittenMessages(s.log, s.fates)| <= m)
  {
    BaseInvHolds(x, r, i);
    CounterInvHolds(x, r, i);
    m := PeerReads(x, r.states[i], n);
  }

  lemma PeerReads(x: Option<Transform>, s: State, n: nat) returns (m: nat)
    requires Fits(x) && LogInv(s) && WireInv(s) && CounterInv(x, s) && n <= |s.wire|
    ensures m <= |Carried(s)|
    ensures AsyncFraming.Receive(s.wire[..n]) == Deliveries(Carried(s)[..m]) + [AsyncFraming.Disconnect]
    ensures OpenAll(x, 0, Frames(Carried(s)[..m])) == Some(Plains(Carried(s)[..m]))
    ensures n == |s.wire| ==> |WrittenMessages(s.log, s.fates)| <= m
  {
    m := PeerFrames(x, s, n);
    PeerOpens(x, s, m);
    if n == |s.wire| {
      WholeWireIsRead(s, m);
    }
  }

  lemma PeerFrames(x: Option<Transform>, s: State, n: nat) returns (m: nat)
    requires Fits(x) && LogInv(s) && WireInv(s) && CounterInv(x, s) && n <= |s.wire|
    ensures m <= |Carried(s)|
    ensures AsyncFraming.Receive(s.wire[..n]) == Deliveries(Carried(s)[..m]) + [AsyncFraming.Disconnect]
    ensures m < |Carried(s)| ==> n < |EncodeAll(Frames(Carried(s))[..m])| + |Encode(Frames(Carried(s))[m])|
  {
    var fs := Frames(Carried(s));
    CarriedCoversWire(s);
    CarriedSealed(x, s);
    SealedFramesFit(x, 0, Plains(Carried(s)), fs);
    assert s.wire[..n] == EncodeAll(fs)[..n];
    AsyncFraming.CutStream(fs, n);
    m := ReadsAPrefix(fs, n);
    assert Deliveries(Carried(s)[..m]) == seq(m, k requires 0 <= k < m => AsyncFraming.Message(fs[k]));
  }

  /** Whatever the peer's read loop delivers, if not the end, is the frame the wire carries at that place. */
  lemma Delivered(x: Option<Transform>, s: State, n: nat, k: nat)
    requires Fits(x) && LogInv(s) && WireInv(s) && CounterInv(x, s) && n <= |s.wire|
    requires k < |AsyncFraming.Receive(s.wire[..n])| && !AsyncFraming.Receive(s.wire[..n])[k].Disconnect?
    ensures k < |Carried(s)| && AsyncFraming.Receive(s.wire[..n])[k] == AsyncFraming.Message(Carried(s)[k].frame)
  {
    var m := PeerFrames(x, s, n);
    var frames := Deliveries(Carried(s)[..m]);
    assert k < |frames|;
    assert frames[k] == AsyncFraming.Message(Carried(s)[..m][k].frame);
  }

  lemma CarriedComesFromLog(s: State, k: nat) returns (j: nat)
    requires LogInv(s) && WireInv(s) && k < |Carried(s)|
    ensures j < |s.log| && Carried(s)[k] == s.log[j]
  {
    WrittenComesFromLog(s.log, s.fates);
    var written := WrittenMessages(s.log, s.fates);
    if k < |written| {
      assert written[k] in s.log;
      j :| 0 <= j < |s.log| && s.log[j] == written[k];
    } else {
      j := Unfinished(s);
    }
  }

  lemma PeerOpens(x: Option<Transform>, s: State, m: nat)
    requires Fits(x) && LogInv(s) && WireInv(s) && CounterInv(x, s) && m <= |Carried(s)|
    ensures OpenAll(x, 0, Frames(Carried(s)[..m])) == Some(Plains(Carried(s)[..m]))
  {
    var fs, plains := Frames(Carried(s)), Plains(Carried(s));
    CarriedSealed(x, s);
    assert fs[..m] == Frames(Carried(s)[..m]) && plains[..m] == Plains(Carried(s)[..m]);
    OpenInOrder(x, 0, plains[..m], fs[..m]);
  }

  lemma WholeWireIsRead(s: State, m: nat)
    requires LogInv(s) && WireInv(s) && m <= |Carried(s)|
    requires m < |Carried(s)| ==>
               |s.wire| < |EncodeAll(Frames(Carried(s))[..m])| + |Encode(Frames(Carried(s))[m])|
    ensures |WrittenMessages(s.log, s.fates)| <= m
  {
    var written := WrittenMessages(s.log, s.fates);
    if m < |written| {
      var fs := Frames(written);
      assert Frames(Carried(s))[..m] == fs[..m] && Frames(Carried(s))[m] == fs[m];
      assert fs == fs[..m] + ([fs[m]] + fs[m + 1..]);
      EncodeAllAppend(fs[..m], [fs[m]] + fs[m + 1..]);
    }
  }

  lemma SealedFramesFit(x: Option<Transform>, n: nat, plain: seq<Frame>, sealed: seq<Frame>)
    requires Fits(x) && SealedInOrder(x, n, plain, sealed)
    ensures AllWellFormed(sealed)
    ensures forall k :: 0 <= k < |sealed| ==> !Oversized(sealed[k].header.length)
  {
    forall k | 0 <= k < |sealed|
      ensures WellFormed(sealed[k]) && !Oversized(sealed[k].header.length)
    {
      SealThenOpen(x, if x.Some? then n + k else n, plain[k], false);
    }
  }
}
