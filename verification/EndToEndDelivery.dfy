/**
 End-to-end delivery: what a client's `recv` yields on a stream is what the stream's handler
 enqueued, from the start, in order, without gaps or repetitions, and all of it if `recv` reports the
 end of the stream.
 */
module Delivery {
  import opened Wire
  import opened Wrappers
  import opened Pipeline
  import AsyncFraming
  import Demux
  import Outbound
  import OutboundTheorems
  import OutboundSteps
  import ClientCore
  import ClientInvariant
  import ClientCallers
  import Receiver
  import opened EndToEnd

  // ----------------------------------------------- the two sides of a stream

  /** The payloads of the stream's data messages, in the order of the server's queue. */
  function StreamData(log: seq<Outbound.Message>, id: U32): seq<Bytes> {
    if log == [] then []
    else
      var m := log[|log| - 1];
      StreamData(log[..|log| - 1], id)
      + if m.plain.header.streamId == id && IsOpenData(m.plain.header) then [m.plain.body] else []
  }

  /** The payloads of the handler's sends that reached the queue, in the order in which it made them. */
  function Given(jobs: map<Id, Outbound.Job>, entered: set<Id>, calls: seq<Id>): seq<Bytes> {
    if calls == [] then []
    else
      var c := calls[|calls| - 1];
      Given(jobs, entered, calls[..|calls| - 1]) + if c in entered && c in jobs then [jobs[c].frame.body] else []
  }

  function HandlerOf(s: State, id: U32): Handler {
    if id in s.handlers then s.handlers[id] else Handler([], None)
  }

  /** What the stream's handler has enqueued so far. */
  function Enqueued(s: State, id: U32): seq<Bytes> {
    Given(s.server.jobs, Outbound.Ids(s.server.log), HandlerOf(s, id).calls)
  }

  // -------------------------------------------------------------- invariant

  predicate JobInv(s: State, call: Id)
    requires call in s.server.jobs
  {
    var h := s.server.jobs[call].frame.header;
    && !s.server.jobs[call].control
    && ClientCore.Known(s.client, h.streamId)
    && (h.kind == MESSAGE_TYPE_DATA || h.kind == MESSAGE_TYPE_RESPONSE)
    && (IsOpenData(h) ==> h.streamId in s.handlers && call in s.handlers[h.streamId].calls)
    && (Demux.IsClosing(h) ==>
          && h.streamId in s.handlers && s.handlers[h.streamId].closing == Some(call)
          && HasFlag(h.flags, FLAG_NO_DATA) && s.server.jobs[call].frame.body == [])
  }

  predicate HandlerCallInv(s: State, id: U32, i: nat)
    requires id in s.handlers && i < |s.handlers[id].calls|
  {
    var call := s.handlers[id].calls[i];
    && call in s.server.jobs && call in s.server.phases
    && s.server.jobs[call].frame.header.streamId == id && IsOpenData(s.server.jobs[call].frame.header)
    && (i < |s.handlers[id].calls| - 1 || s.handlers[id].closing.Some? ==> s.server.phases[call].Done?)
  }

  ghost predicate HandlerInv(s: State, id: U32)
    requires id in s.handlers
  {
    var calls := s.handlers[id].calls;
    && ClientCore.Known(s.client, id)
    && (forall i :: 0 <= i < |calls| ==> HandlerCallInv(s, id, i))
    && (forall i, j :: 0 <= i < j < |calls| ==> calls[i] != calls[j])
    && (s.handlers[id].closing.Some? ==> s.handlers[id].closing.value in s.server.jobs)
    && StreamData(s.server.log, id) == Enqueued(s, id)
  }

  ghost predicate HandlersInv(s: State) {
    && (forall call :: call in s.server.jobs ==> JobInv(s, call))
    && (forall id :: id in s.handlers ==> HandlerInv(s, id))
  }

  /** Nothing follows a stream's closing frame, and the server's writer never discards. */
  predicate LogOrder(o: Outbound.State) {
    && (forall k, l :: 0 <= k < l < |o.log| && Demux.IsClosing(o.log[k].plain.header) && IsOpenData(o.log[l].plain.header) ==>
          o.log[k].plain.header.streamId != o.log[l].plain.header.streamId)
    && (forall k :: 0 <= k < |o.log| ==> !o.log[k].control)
    && (forall k :: 0 <= k < |o.fates| ==> o.fates[k] != Outbound.Discarded)
  }

  function EventOf(m: Outbound.Message): Demux.Event {
    Demux.Inbound(m.frame.header, Ok(m.plain))
  }

  predicate Lost(r: ClientCore.Reader) {
    r.Draining? || r.Ended?
  }

  /** The client's events are the server's first messages, in the order of the server's queue. */
  predicate LinkInv(down: Way, s: State) {
    && s.received <= |s.server.log|
    && s.unsealed == (if down.Some? then s.received else 0)
    && s.received <= |s.client.events| <= s.received + 1
    && (forall k :: 0 <= k < s.received ==> s.client.events[k] == EventOf(s.server.log[k]))
    && (|s.client.events| > s.received ==> s.client.events[s.received] == Demux.Disconnected && Lost(s.client.reader))
    && (Lost(s.client.reader) ==> |s.client.events| > s.received)
  }

  /** No message for a caller's stream is older than the caller's registration. */
  predicate SinceInv(s: State, c: ClientCore.CallerId)
    requires c < |s.client.callers|
  {
    var since := s.client.callers[c].since;
    since.Some? && since.value <= s.received ==>
      forall k :: 0 <= k < since.value && k < |s.server.log| ==> s.server.log[k].plain.header.streamId != ClientCore.IdOf(c)
  }

  ghost predicate CausalInv(s: State) {
    forall c :: 0 <= c < |s.client.callers| ==> SinceInv(s, c)
  }

  ghost predicate Inv(down: Way, s: State) {
    HandlersInv(s) && LogOrder(s.server) && LinkInv(down, s) && CausalInv(s)
  }

  // ------------------------------------------------------- small facts

  lemma {:induction false} GivenStable(jobs: map<Id, Outbound.Job>, more: map<Id, Outbound.Job>, entered: set<Id>, also: set<Id>,
                                       calls: seq<Id>)
    requires forall i :: 0 <= i < |calls| ==>
               && calls[i] in jobs && calls[i] in more && more[calls[i]] == jobs[calls[i]]
               && (calls[i] in also <==> calls[i] in entered)
    ensures Given(more, also, calls) == Given(jobs, entered, calls)
  {
    if calls != [] {
      GivenStable(jobs, more, entered, also, calls[..|calls| - 1]);
    }
  }

  /** One more call enters the queue; it can only be the last one. */
  lemma GivenEntered(jobs: map<Id, Outbound.Job>, entered: set<Id>, c: Id, calls: seq<Id>)
    requires c in jobs && c !in entered
    requires forall i :: 0 <= i < |calls| ==> calls[i] in jobs
    requires forall i :: 0 <= i < |calls| - 1 ==> calls[i] != c
    ensures Given(jobs, entered + {c}, calls)
         == Given(jobs, entered, calls) + if calls != [] && calls[|calls| - 1] == c then [jobs[c].frame.body] else []
  {
    if calls != [] {
      GivenStable(jobs, jobs, entered, entered + {c}, calls[..|calls| - 1]);
    }
  }

  /** A call that has not entered the queue adds nothing. */
  lemma GivenCalled(jobs: map<Id, Outbound.Job>, more: map<Id, Outbound.Job>, entered: set<Id>, calls: seq<Id>, now: seq<Id>, call: Id)
    requires now == calls || now == calls + [call]
    requires call !in entered
    requires forall i :: 0 <= i < |calls| ==> calls[i] in jobs && calls[i] in more && more[calls[i]] == jobs[calls[i]]
    ensures Given(more, entered, now) == Given(jobs, entered, calls)
  {
    GivenStable(jobs, more, entered, entered, calls);
    if now != calls {
      assert now[..|now| - 1] == calls;
    }
  }

  lemma StreamDataExtended(log: seq<Outbound.Message>, m: Outbound.Message, id: U32)
    ensures StreamData(log + [m], id)
         == StreamData(log, id) + if m.plain.header.streamId == id && IsOpenData(m.plain.header) then [m.plain.body] else []
  {
    assert (log + [m])[..|log|] == log;
  }

  lemma IdsExtended(log: seq<Outbound.Message>, m: Outbound.Message)
    ensures Outbound.Ids(log + [m]) == Outbound.Ids(log) + {m.id}
  {
    forall i | i in Outbound.Ids(log) + {m.id}
      ensures i in Outbound.Ids(log + [m])
    {
      if i == m.id {
        assert (log + [m])[|log|] == m;
      } else {
        var n :| n in log && n.id == i;
        assert n in log + [m];
      }
    }
  }

  /** What a message in the queue's history was made from. */
  lemma LogJob(down: Way, s: Outbound.State, k: nat)
    requires Outbound.EnteredInv(s) && Outbound.CounterInv(down, s) && Fits(down) && k < |s.log|
    ensures var m := s.log[k];
            && m.id in s.jobs && m.plain == s.jobs[m.id].frame
            && m.frame.header.(length := 0) == m.plain.header.(length := 0)
            && OpenFrame(down, if down.Some? then k else 0, m.frame, false) == (Ok(m.plain), if down.Some? then k + 1 else 0)
            && !Oversized(|m.plain.body|)
  {
    var m := s.log[k];
    assert Outbound.SealedAt(down, if down.Some? then k else 0, m.plain, m.frame);
    SealThenOpen(down, if down.Some? then k else 0, m.plain, false);
  }

  // ------------------------------------------------------ the client's steps

  /** What the history depends on in a step of the client that reads no frame. */
  lemma ClientFrame(up: Way, s: ClientCore.State, b: ClientCore.Action, t: ClientCore.State)
    requires ClientCore.Next(up, s, b, t) && !(b.ByReader? && b.readerOp.Route?)
    ensures |s.callers| <= |t.callers|
    ensures forall c :: 0 <= c < |s.callers| ==>
              t.callers[c].since == s.callers[c].since || b == ClientCore.ByCaller(c, ClientCore.CallerOp.Register)
    ensures forall c :: |s.callers| <= c < |t.callers| ==> t.callers[c].since == None
    ensures t.events == if b == ClientCore.ByReader(ClientCore.TakeRegistry) then s.events + [Demux.Disconnected] else s.events
    ensures Lost(t.reader) <==> Lost(s.reader) || b == ClientCore.ByReader(ClientCore.TakeRegistry)
    ensures b == ClientCore.ByReader(ClientCore.TakeRegistry) ==> s.reader.Losing?
  {
    if b.ByCaller? {
      ClientCallers.CallerFrame(up, s, b.c, b.op, t);
    } else if b.ByReader? {
      ClientInvariant.ReaderFrame(s, b.readerOp, t);
    }
  }

  /** A caller that registers had no message addressed to it before. */
  lemma RegisterIsCausal(up: Way, down: Way, s: State, c: ClientCore.CallerId, t: State)
    requires Outbound.EnteredInv(s.server) && ClientCore.Inv(s.client) && HandlersInv(s) && LinkInv(down, s)
    requires ClientCore.Bounded(s.client)
    requires Next(up, down, s, Client(ClientCore.ByCaller(c, ClientCore.CallerOp.Register)), t)
    ensures c < |t.client.callers| && SinceInv(t, c)
  {
    assert ClientCore.CallerInv(s.client, c);
    forall k | 0 <= k < |s.server.log|
      ensures s.server.log[k].plain.header.streamId != ClientCore.IdOf(c)
    {
      assert JobInv(s, s.server.log[k].id);
      ClientCore.IdsDistinct(c, c);
    }
  }

  lemma KnownStays(up: Way, s: ClientCore.State, b: ClientCore.Action, t: ClientCore.State, id: U32)
    requires ClientCore.Inv(s) && ClientCore.Bounded(s) && ClientCore.Next(up, s, b, t) && ClientCore.Known(s, id)
    ensures ClientCore.Known(t, id)
  {
    var c := (id - 1) / 2;
    assert ClientCore.CallerInv(s, c);
    if b.ByCaller? {
      ClientCallers.CallerFrame(up, s, b.c, b.op, t);
    } else if b.ByReader? {
      ClientInvariant.ReaderFrame(s, b.readerOp, t);
    }
  }

  lemma HandlersUnmoved(s: State, t: State)
    requires HandlersInv(s) && t.server == s.server && t.handlers == s.handlers
    requires forall id :: ClientCore.Known(s.client, id) ==> ClientCore.Known(t.client, id)
    ensures HandlersInv(t)
  {
    forall call | call in t.server.jobs
      ensures JobInv(t, call)
    {
      assert JobInv(s, call);
    }
    forall id | id in t.handlers
      ensures HandlerInv(t, id)
    {
      assert HandlerInv(s, id);
      forall i | 0 <= i < |t.handlers[id].calls|
        ensures HandlerCallInv(t, id, i)
      {
        assert HandlerCallInv(s, id, i);
      }
    }
  }

  lemma ClientKeepsInv(up: Way, down: Way, s: State, b: ClientCore.Action, t: State)
    requires ClientCore.Bounded(t.client) && ClientCore.Inv(s.client) && Outbound.EnteredInv(s.server)
    requires Inv(down, s) && Next(up, down, s, Client(b), t)
    ensures Inv(down, t)
  {
    ClientFrame(up, s.client, b, t.client);
    forall id | ClientCore.Known(s.client, id)
      ensures ClientCore.Known(t.client, id)
    {
      KnownStays(up, s.client, b, t.client, id);
    }
    HandlersUnmoved(s, t);
    forall c | 0 <= c < |t.client.callers|
      ensures SinceInv(t, c)
    {
      if b == ClientCore.ByCaller(c, ClientCore.CallerOp.Register) {
        RegisterIsCausal(up, down, s, c, t);
      } else {
        assert c < |s.client.callers| ==> SinceInv(s, c);
      }
    }
  }

  // ------------------------------------------------------- the reader's step

  /** The next thing the client decodes is the server's next message, and it opens to what was sealed. */
  lemma NextFrame(down: Way, s: State, n: nat)
    requires Fits(down) && ServerSide(down, s.server) && LogOrder(s.server) && LinkInv(down, s)
    requires n <= |s.server.wire| && s.received < |AsyncFraming.Receive(s.server.wire[..n])|
    requires !AsyncFraming.Receive(s.server.wire[..n])[s.received].Disconnect?
    ensures s.received < |s.server.log|
    ensures AsyncFraming.Receive(s.server.wire[..n])[s.received] == AsyncFraming.Message(s.server.log[s.received].frame)
    ensures OpenFrame(down, s.unsealed, s.server.log[s.received].frame, false)
         == (Ok(s.server.log[s.received].plain), if down.Some? then s.unsealed + 1 else s.unsealed)
  {
    OutboundTheorems.Delivered(down, s.server, n, s.received);
    OutboundTheorems.CarriedIsPrefix(s.server);
    LogJob(down, s.server, s.received);
  }

  lemma ReadIsNextMessage(up: Way, down: Way, s: State, n: nat, t: State)
    requires Fits(down) && ServerSide(down, s.server) && LogOrder(s.server) && LinkInv(down, s)
    requires Next(up, down, s, ClientReads(n), t)
    ensures s.received < |s.server.log| && t.received == s.received + 1
    ensures t.server == s.server && t.handlers == s.handlers
    ensures t.unsealed == if down.Some? then s.unsealed + 1 else s.unsealed
    ensures t.client.callers == s.client.callers && s.client.reader.Ready? && !Lost(t.client.reader)
    ensures t.client.events == s.client.events + [EventOf(s.server.log[s.received])]
  {
    NextFrame(down, s, n);
  }

  lemma NextMessageKeepsInv(down: Way, s: State, t: State)
    requires ClientCore.Inv(s.client) && Inv(down, s)
    requires s.received < |s.server.log| && t.received == s.received + 1
    requires t.server == s.server && t.handlers == s.handlers
    requires t.unsealed == if down.Some? then s.unsealed + 1 else s.unsealed
    requires t.client.callers == s.client.callers && s.client.reader.Ready? && !Lost(t.client.reader)
    requires t.client.events == s.client.events + [EventOf(s.server.log[s.received])]
    ensures Inv(down, t)
  {
    HandlersUnmoved(s, t);
    forall c | 0 <= c < |t.client.callers|
      ensures SinceInv(t, c)
    {
      assert SinceInv(s, c);
      assert ClientCore.CallerInv(s.client, c);
    }
  }

  lemma ReadKeepsInv(up: Way, down: Way, s: State, n: nat, t: State)
    requires Fits(down) && ServerSide(down, s.server) && ClientCore.Inv(s.client)
    requires Inv(down, s) && Next(up, down, s, ClientReads(n), t)
    ensures Inv(down, t)
  {
    ReadIsNextMessage(up, down, s, n, t);
    NextMessageKeepsInv(down, s, t);
  }

  // ------------------------------------------------------ the server's steps

  /** Everything but an enqueue leaves the history of the queue alone. */
  lemma QuietKeepsInv(down: Way, s: State, o: Outbound.Action, t: State)
    requires Outbound.LogInv(s.server) && Inv(down, s) && Outbound.Next(down, s.server, o, t.server)
    requires t == s.(server := t.server) && !(o.ByCall? && (o.op.Call? || o.op.Enqueue?))
    ensures Inv(down, t)
  {
    if o.ByCall? {
      OutboundSteps.CallFrame(down, s.server, o.id, o.op, t.server);
    } else {
      OutboundSteps.WriterFrame(s.server, o.writerOp, t.server);
      if Outbound.Current(s.server.writer) != [] {
        OutboundSteps.CurrentIsNext(s.server);
      }
    }
    QuietKeepsHandlers(s, t);
    assert LogOrder(t.server);
    forall c | 0 <= c < |t.client.callers|
      ensures SinceInv(t, c)
    {
      assert SinceInv(s, c);
    }
  }

  lemma QuietKeepsHandlers(s: State, t: State)
    requires HandlersInv(s) && t == s.(server := t.server)
    requires t.server.jobs == s.server.jobs && t.server.log == s.server.log
    requires forall c :: c in s.server.phases ==>
               c in t.server.phases && (s.server.phases[c].Done? ==> t.server.phases[c].Done?)
    ensures HandlersInv(t)
  {
    forall call | call in t.server.jobs
      ensures JobInv(t, call)
    {
      assert JobInv(s, call);
    }
    forall id | id in t.handlers
      ensures HandlerInv(t, id)
    {
      assert HandlerInv(s, id);
      forall i | 0 <= i < |t.handlers[id].calls|
        ensures HandlerCallInv(t, id, i)
      {
        assert HandlerCallInv(s, id, i);
      }
    }
  }

  /** Only a handler's last call can still enter the queue, and only as long as the stream is open. */
  lemma UnfinishedIsLast(s: State, id: U32, c: Id)
    requires id in s.handlers && c in s.handlers[id].calls && c in s.server.phases && !s.server.phases[c].Done?
    requires forall i :: 0 <= i < |s.handlers[id].calls| ==> HandlerCallInv(s, id, i)
    ensures s.handlers[id].closing.None? && s.handlers[id].calls[|s.handlers[id].calls| - 1] == c
  {
    var i :| 0 <= i < |s.handlers[id].calls| && s.handlers[id].calls[i] == c;
    assert HandlerCallInv(s, id, i);
  }

  lemma EnteringIsLast(s: State, c: Id, id: U32)
    requires c in s.server.jobs && c in s.server.phases && !s.server.phases[c].Done? && JobInv(s, c)
    requires IsOpenData(s.server.jobs[c].frame.header) && id == s.server.jobs[c].frame.header.streamId
    requires id in s.handlers && HandlerInv(s, id)
    ensures s.handlers[id].closing.None? && s.handlers[id].calls != []
    ensures s.handlers[id].calls[|s.handlers[id].calls| - 1] == c
  {
    UnfinishedIsLast(s, id, c);
  }

  /** The history of the queue and the handler's own account of it grow together. */
  lemma EnqueueKeepsAccount(s: State, m: Outbound.Message, t: State, id: U32)
    requires Outbound.EnteredInv(s.server) && t == s.(server := Outbound.Entered(s.server, m))
    requires m.id in s.server.jobs && m.plain == s.server.jobs[m.id].frame
    requires m.id in s.server.phases && s.server.phases[m.id].Sealed?
    requires JobInv(s, m.id) && id in s.handlers && HandlerInv(s, id)
    ensures StreamData(t.server.log, id) == Enqueued(t, id)
  {
    var calls, entered := s.handlers[id].calls, Outbound.Ids(s.server.log);
    assert m.id !in entered;
    StreamDataExtended(s.server.log, m, id);
    IdsExtended(s.server.log, m);
    forall i | 0 <= i < |calls|
      ensures calls[i] in s.server.jobs && (i < |calls| - 1 ==> calls[i] != m.id)
    {
      assert HandlerCallInv(s, id, i);
    }
    GivenEntered(s.server.jobs, entered, m.id, calls);
    LastIsEntering(s, m.id, id);
  }

  /** The entering call is the handler's last one exactly if it carries the stream's data. */
  lemma LastIsEntering(s: State, c: Id, id: U32)
    requires c in s.server.jobs && c in s.server.phases && !s.server.phases[c].Done? && JobInv(s, c)
    requires id in s.handlers && HandlerInv(s, id)
    ensures var h, calls := s.server.jobs[c].frame.header, s.handlers[id].calls;
            h.streamId == id && IsOpenData(h) <==> calls != [] && calls[|calls| - 1] == c
  {
    var h, calls := s.server.jobs[c].frame.header, s.handlers[id].calls;
    if h.streamId == id && IsOpenData(h) {
      EnteringIsLast(s, c, id);
    } else if calls != [] {
      assert HandlerCallInv(s, id, |calls| - 1);
    }
  }

  lemma EnqueueKeepsHandlers(down: Way, s: State, c: Id, t: State)
    requires Outbound.EnteredInv(s.server) && HandlersInv(s) && s.server.open
    requires Outbound.CallNext(down, s.server, c, Outbound.Enqueue, t.server) && t == s.(server := t.server)
    ensures HandlersInv(t)
  {
    forall call | call in t.server.jobs
      ensures JobInv(t, call)
    {
      assert JobInv(s, call);
    }
    forall id | id in t.handlers
      ensures HandlerInv(t, id)
    {
      assert JobInv(s, c) && HandlerInv(s, id);
      EnqueueKeepsAccount(s, Outbound.MessageOf(down, s.server, c), t, id);
      forall i | 0 <= i < |t.handlers[id].calls|
        ensures HandlerCallInv(t, id, i)
      {
        assert HandlerCallInv(s, id, i);
      }
    }
  }

  lemma EnqueueKeepsOrder(down: Way, s: State, c: Id, t: State)
    requires Outbound.EnteredInv(s.server) && HandlersInv(s) && LogOrder(s.server) && s.server.open
    requires Outbound.CallNext(down, s.server, c, Outbound.Enqueue, t.server)
    ensures LogOrder(t.server)
  {
    var log, m := s.server.log, t.server.log[|s.server.log|];
    assert JobInv(s, c);
    forall k | 0 <= k < |log| && Demux.IsClosing(log[k].plain.header) && IsOpenData(m.plain.header)
      ensures log[k].plain.header.streamId != m.plain.header.streamId
    {
      assert JobInv(s, log[k].id);
      var id := m.plain.header.streamId;
      assert HandlerInv(s, id);
      EnteringIsLast(s, c, id);
    }
  }

  lemma EnqueueKeepsInv(down: Way, s: State, c: Id, t: State)
    requires Outbound.EnteredInv(s.server) && ClientCore.Inv(s.client) && Inv(down, s)
    requires Outbound.CallNext(down, s.server, c, Outbound.Enqueue, t.server) && t == s.(server := t.server)
    ensures Inv(down, t)
  {
    if s.server.open {
      EnqueueKeepsHandlers(down, s, c, t);
      EnqueueKeepsOrder(down, s, c, t);
      forall d | 0 <= d < |t.client.callers|
        ensures SinceInv(t, d)
      {
        assert SinceInv(s, d);
      }
    } else {
      QuietKeepsHandlers(s, t);
      forall d | 0 <= d < |t.client.callers|
        ensures SinceInv(t, d)
      {
        assert SinceInv(s, d);
      }
    }
  }

  // ----------------------------------------------------- the handlers' steps

  /** A stream id reaches the server only after the client registered it. */
  lemma HeardIsKnown(up: Way, s: State, id: U32)
    requires Fits(up) && ClientSide(up, s.client) && Heard(s, id)
    ensures ClientCore.Known(s.client, id)
  {
    var out := s.client.out;
    var n, k :| HeardAt(out.wire, n, k, id);
    OutboundTheorems.Delivered(up, out, n, k);
    var j := OutboundTheorems.CarriedComesFromLog(out, k);
    LogJob(up, out, j);
  }

  lemma {:induction false} NoStreamData(log: seq<Outbound.Message>, id: U32)
    requires forall k :: 0 <= k < |log| ==> !(log[k].plain.header.streamId == id && IsOpenData(log[k].plain.header))
    ensures StreamData(log, id) == []
  {
    if log != [] {
      NoStreamData(log[..|log| - 1], id);
    }
  }

  lemma NoDataBeforeStart(s: State, id: U32)
    requires Outbound.EnteredInv(s.server) && HandlersInv(s) && id !in s.handlers
    ensures StreamData(s.server.log, id) == []
  {
    forall k | 0 <= k < |s.server.log|
      ensures !(s.server.log[k].plain.header.streamId == id && IsOpenData(s.server.log[k].plain.header))
    {
      assert JobInv(s, s.server.log[k].id);
    }
    NoStreamData(s.server.log, id);
  }

  lemma StartKeepsHandlers(s: State, id: U32, t: State)
    requires Outbound.EnteredInv(s.server) && HandlersInv(s) && ClientCore.Known(s.client, id)
    requires id !in s.handlers && t == s.(handlers := s.handlers[id := Handler([], None)])
    ensures HandlersInv(t)
  {
    NoDataBeforeStart(s, id);
    forall call | call in t.server.jobs
      ensures JobInv(t, call)
    {
      assert JobInv(s, call);
    }
    forall jd | jd in t.handlers
      ensures HandlerInv(t, jd)
    {
      if jd != id {
        assert HandlerInv(s, jd);
        forall i | 0 <= i < |t.handlers[jd].calls|
          ensures HandlerCallInv(t, jd, i)
        {
          assert HandlerCallInv(s, jd, i);
        }
      }
    }
  }

  lemma StartKeepsInv(up: Way, down: Way, s: State, id: U32, t: State)
    requires Fits(up) && ClientSide(up, s.client) && Outbound.EnteredInv(s.server)
    requires Inv(down, s) && HandlerNext(down, s, StartHandler(id), t)
    ensures Inv(down, t)
  {
    HeardIsKnown(up, s, id);
    StartKeepsHandlers(s, id, t);
    forall c | 0 <= c < |t.client.callers|
      ensures SinceInv(t, c)
    {
      assert SinceInv(s, c);
    }
  }

  /** A new call of the server: what it may be, given which handler makes it. */
  ghost predicate Permitted(s: State, id: U32, call: Id, job: Outbound.Job, t: State) {
    && ClientCore.Known(s.client, id) && t.client == s.client && t.received == s.received && t.unsealed == s.unsealed
    && (forall jd :: jd in s.handlers ==> jd in t.handlers)
    && t.handlers.Keys == s.handlers.Keys
    && (forall jd :: jd in s.handlers && jd != id ==> t.handlers[jd] == s.handlers[jd])
    && var h := job.frame.header;
       if IsOpenData(h) then
         && id in s.handlers && s.handlers[id].closing.None? && Idle(s.server, s.handlers[id])
         && t.handlers[id] == s.handlers[id].(calls := s.handlers[id].calls + [call])
       else if Demux.IsClosing(h) then
         && id in s.handlers && s.handlers[id].closing.None? && Idle(s.server, s.handlers[id])
         && t.handlers[id] == s.handlers[id].(closing := Some(call))
         && HasFlag(h.flags, FLAG_NO_DATA) && job.frame.body == []
       else
         && h.kind == MESSAGE_TYPE_RESPONSE
         && (id in s.handlers ==>
               || t.handlers[id] == s.handlers[id]
               || (s.handlers[id].closing.None? && Idle(s.server, s.handlers[id])
                   && t.handlers[id] == s.handlers[id].(closing := Some(call))))
  }

  lemma AnswerIsPermitted(up: Way, down: Way, s: State, id: U32, call: Id, job: Outbound.Job, t: State)
    requires Fits(up) && ClientSide(up, s.client) && HandlerNext(down, s, ServerAnswers(id, call, job), t)
    ensures Permitted(s, id, call, job, t)
  {
    HeardIsKnown(up, s, id);
    assert t.handlers == s.handlers;
  }

  lemma HandlerCallIsPermitted(down: Way, s: State, a: Action, t: State)
    requires HandlersInv(s) && HandlerNext(down, s, a, t) && (a.HandlerSends? || a.HandlerEnds?)
    ensures Permitted(s, a.id, a.call, a.job, t)
  {
    assert HandlerInv(s, a.id);
    assert t.handlers.Keys == s.handlers.Keys;
  }

  lemma CallIsPermitted(up: Way, down: Way, s: State, a: Action, t: State)
    requires Fits(up) && ClientSide(up, s.client) && HandlersInv(s) && HandlerNext(down, s, a, t) && !a.StartHandler?
    ensures ServerCalls(down, s, a.id, a.call, a.job, t) && Permitted(s, a.id, a.call, a.job, t)
  {
    if a.ServerAnswers? {
      AnswerIsPermitted(up, down, s, a.id, a.call, a.job, t);
    } else {
      HandlerCallIsPermitted(down, s, a, t);
    }
  }

  /** All that a new call changes in the server's sending half. */
  predicate OnlyCalled(s: Outbound.State, call: Id, job: Outbound.Job, t: Outbound.State) {
    && call !in s.phases && t.jobs == s.jobs[call := job] && t.phases == s.phases[call := Outbound.Reserving]
    && t.log == s.log && t.fates == s.fates
  }

  lemma ServerOnlyCalls(down: Way, s: State, id: U32, call: Id, job: Outbound.Job, t: State)
    requires ServerCalls(down, s, id, call, job, t)
    ensures OnlyCalled(s.server, call, job, t.server) && job.frame.header.streamId == id && !job.control
  {
  }

  lemma OldCallKept(s: State, id: U32, call: Id, job: Outbound.Job, t: State, jd: U32, i: nat)
    requires OnlyCalled(s.server, call, job, t.server) && Permitted(s, id, call, job, t)
    requires jd in s.handlers && i < |s.handlers[jd].calls| && HandlerCallInv(s, jd, i)
    ensures i < |t.handlers[jd].calls| && t.handlers[jd].calls[i] == s.handlers[jd].calls[i]
    ensures HandlerCallInv(t, jd, i)
  {
    var calls := s.handlers[jd].calls;
    assert calls[i] != call;
    if jd != id {
      assert t.handlers[jd] == s.handlers[jd];
    } else if t.handlers[id] != s.handlers[id] {
      assert Idle(s.server, s.handlers[id]);
      assert s.server.phases[calls[i]].Done?;
    }
  }

  lemma CallKeepsHandlerCalls(s: State, id: U32, call: Id, job: Outbound.Job, t: State, jd: U32, i: nat)
    requires OnlyCalled(s.server, call, job, t.server) && job.frame.header.streamId == id && Permitted(s, id, call, job, t)
    requires jd in t.handlers && HandlerInv(s, jd) && i < |t.handlers[jd].calls|
    ensures HandlerCallInv(t, jd, i)
    ensures i < |s.handlers[jd].calls| ==>
              t.handlers[jd].calls[i] == s.handlers[jd].calls[i] && s.handlers[jd].calls[i] in s.server.phases
  {
    if i < |s.handlers[jd].calls| {
      assert HandlerCallInv(s, jd, i);
      OldCallKept(s, id, call, job, t, jd, i);
    }
  }

  lemma CallKeepsAccount(s: State, id: U32, call: Id, job: Outbound.Job, t: State, jd: U32)
    requires Outbound.LockInv(s.server) && Outbound.EnteredInv(s.server)
    requires OnlyCalled(s.server, call, job, t.server) && job.frame.header.streamId == id && Permitted(s, id, call, job, t)
    requires jd in t.handlers && HandlerInv(s, jd)
    ensures StreamData(t.server.log, jd) == Enqueued(t, jd)
  {
    var calls := s.handlers[jd].calls;
    forall i | 0 <= i < |calls|
      ensures calls[i] in s.server.jobs && calls[i] != call
    {
      assert HandlerCallInv(s, jd, i);
    }
    assert call !in Outbound.Ids(s.server.log);
    GivenCalled(s.server.jobs, t.server.jobs, Outbound.Ids(s.server.log), calls, t.handlers[jd].calls, call);
  }

  lemma CallKeepsHandler(s: State, id: U32, call: Id, job: Outbound.Job, t: State, jd: U32)
    requires Outbound.LockInv(s.server) && Outbound.EnteredInv(s.server)
    requires OnlyCalled(s.server, call, job, t.server) && job.frame.header.streamId == id && Permitted(s, id, call, job, t)
    requires jd in t.handlers && HandlerInv(s, jd)
    ensures HandlerInv(t, jd)
  {
    CallKeepsAccount(s, id, call, job, t, jd);
    forall i | 0 <= i < |t.handlers[jd].calls|
      ensures HandlerCallInv(t, jd, i)
      ensures i < |s.handlers[jd].calls| ==>
                t.handlers[jd].calls[i] == s.handlers[jd].calls[i] && s.handlers[jd].calls[i] in s.server.phases
    {
      CallKeepsHandlerCalls(s, id, call, job, t, jd, i);
    }
  }

  lemma CallKeepsJobs(down: Way, s: State, id: U32, call: Id, job: Outbound.Job, t: State)
    requires Outbound.LockInv(s.server)
    requires HandlersInv(s) && ServerCalls(down, s, id, call, job, t) && Permitted(s, id, call, job, t)
    ensures forall c :: c in t.server.jobs ==> JobInv(t, c)
  {
    forall c | c in t.server.jobs
      ensures JobInv(t, c)
    {
      if c == call {
        if IsOpenData(job.frame.header) {
          assert t.handlers[id].calls[|s.handlers[id].calls|] == call;
        }
      } else {
        assert JobInv(s, c);
        var jd := s.server.jobs[c].frame.header.streamId;
        if IsOpenData(s.server.jobs[c].frame.header) {
          assert s.handlers[jd].calls <= t.handlers[jd].calls;
        }
      }
    }
  }

  lemma CallKeepsInv(down: Way, s: State, id: U32, call: Id, job: Outbound.Job, t: State)
    requires Outbound.LockInv(s.server) && Outbound.EnteredInv(s.server)
    requires Inv(down, s) && ServerCalls(down, s, id, call, job, t) && Permitted(s, id, call, job, t)
    ensures Inv(down, t)
  {
    OutboundSteps.CallFrame(down, s.server, call, Outbound.Call(job), t.server);
    ServerOnlyCalls(down, s, id, call, job, t);
    CallKeepsJobs(down, s, id, call, job, t);
    forall jd | jd in t.handlers
      ensures HandlerInv(t, jd)
    {
      assert HandlerInv(s, jd);
      CallKeepsHandler(s, id, call, job, t, jd);
    }
    forall c | 0 <= c < |t.client.callers|
      ensures SinceInv(t, c)
    {
      assert SinceInv(s, c);
    }
  }

  // --------------------------------------------------------------- every run

  lemma InvKept(up: Way, down: Way, s: State, a: Action, t: State)
    requires Fits(up) && Fits(down) && ClientSide(up, s.client) && ServerSide(down, s.server)
    requires ClientCore.Bounded(t.client) && Inv(down, s) && Next(up, down, s, a, t)
    ensures Inv(down, t)
  {
    if a.Client? {
      ClientKeepsInv(up, down, s, a.a, t);
    } else if a.ClientReads? {
      ReadKeepsInv(up, down, s, a.n, t);
    } else if a.Server? {
      if a.o.ByCall? && a.o.op.Enqueue? {
        EnqueueKeepsInv(down, s, a.o.id, t);
      } else {
        QuietKeepsInv(down, s, a.o, t);
      }
    } else if a.StartHandler? {
      StartKeepsInv(up, down, s, a.id, t);
    } else {
      CallIsPermitted(up, down, s, a, t);
      CallKeepsInv(down, s, a.id, a.call, a.job, t);
    }
  }

  lemma InvStep(up: Way, down: Way, r: Run, i: nat)
    requires Fits(up) && Fits(down) && IsRun(up, down, r) && i < |r.actions|
    requires ClientCore.Bounded(r.states[i + 1].client)
    ensures ClientCore.Bounded(r.states[i].client)
    ensures Inv(down, r.states[i]) ==> Inv(down, r.states[i + 1])
  {
    assert Step(up, down, r, i);
    ClientGrows(up, down, r.states[i], r.actions[i], r.states[i + 1]);
    SidesHold(up, down, r, i);
    if Inv(down, r.states[i]) {
      InvKept(up, down, r.states[i], r.actions[i], r.states[i + 1]);
    }
  }

  lemma {:induction false} InvHolds(up: Way, down: Way, r: Run, i: nat)
    requires Fits(up) && Fits(down) && IsRun(up, down, r) && i < |r.states| && ClientCore.Bounded(r.states[i].client)
    ensures Inv(down, r.states[i])
    decreases i
  {
    if i > 0 {
      InvStep(up, down, r, i - 1);
      InvHolds(up, down, r, i - 1);
    }
  }
}
