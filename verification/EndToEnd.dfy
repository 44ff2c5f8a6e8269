/**
 A client and a server joined by their two byte streams. The client is the machine of `ClientCore`;
 the server is its sending half together with the stream handlers, each of which sends one payload
 at a time and closes its stream when it is done. Each side sees of the other only bytes: the
 client's reader decodes and opens the next frame of what the server has written so far, and the
 server acts on a stream id only after a frame with that id has reached it.

 `up` and `down` are the transforms of the two directions.
 */
module EndToEnd {
  import opened Wire
  import opened Wrappers
  import opened Pipeline
  import AsyncFraming
  import Demux
  import Outbound
  import OutboundSteps
  import ClientCore
  import ClientInvariant

  type Id = Outbound.Id

  // The handler's sends in program order, and the send of its closing frame or response.
  datatype Handler = Handler(calls: seq<Id>, closing: Option<Id>)

  datatype State = State(
    client: ClientCore.State,
    server: Outbound.State,
    handlers: map<U32, Handler>,
    received: nat,                // frames the client's reader has read
    unsealed: nat)                // the client's inbound counter

  datatype Action =
    | Client(a: ClientCore.Action)
    | ClientReads(n: nat)                                   // from the first `n` bytes
    | Server(o: Outbound.Action)
    | StartHandler(id: U32)
    | HandlerSends(id: U32, call: Id, job: Outbound.Job)
    | HandlerEnds(id: U32, call: Id, job: Outbound.Job)
    | ServerAnswers(id: U32, call: Id, job: Outbound.Job)   // a unary response, or an error

  type Way = Option<Transform>

  ghost predicate Init(s: State) {
    && ClientCore.Init(s.client) && Outbound.Init(s.server)
    && s.handlers == map[] && s.received == 0 && s.unsealed == 0
  }

  /** The `k`-th thing the server's reader makes of the client's first `n` bytes is about stream `id`. */
  predicate HeardAt(wire: seq<Byte>, n: nat, k: nat, id: U32) {
    && n <= |wire| && k < |AsyncFraming.Receive(wire[..n])|
    && match AsyncFraming.Receive(wire[..n])[k]
       case Message(f) => f.header.streamId == id
       case Failed(h) => h.streamId == id
       case Disconnect => false
  }

  ghost predicate Heard(s: State, id: U32) {
    exists n, k :: HeardAt(s.client.out.wire, n, k, id)
  }

  predicate IsOpenData(h: Header) {
    h.kind == MESSAGE_TYPE_DATA && !Demux.IsClosing(h)
  }

  /** The handler's last send has returned or was given up. */
  predicate Idle(server: Outbound.State, h: Handler) {
    h.calls == [] || (h.calls[|h.calls| - 1] in server.phases && server.phases[h.calls[|h.calls| - 1]].Done?)
  }

  /** A new call of the server's `transform_send`, for stream `id`. */
  ghost predicate ServerCalls(down: Way, s: State, id: U32, call: Id, job: Outbound.Job, t: State) {
    && job.frame.header.streamId == id && !job.control
    && Outbound.CallNext(down, s.server, call, Outbound.Call(job), t.server)
  }

  ghost predicate HandlerNext(down: Way, s: State, a: Action, t: State) {
    match a
    case StartHandler(id) =>
      Heard(s, id) && id !in s.handlers && t == s.(handlers := s.handlers[id := Handler([], None)])
    case HandlerSends(id, call, job) =>
      && id in s.handlers && s.handlers[id].closing.None? && Idle(s.server, s.handlers[id])
      && IsOpenData(job.frame.header) && job.awaitAck && ServerCalls(down, s, id, call, job, t)
      && t == s.(server := t.server,
                 handlers := s.handlers[id := s.handlers[id].(calls := s.handlers[id].calls + [call])])
    case HandlerEnds(id, call, job) =>
      && id in s.handlers && s.handlers[id].closing.None? && Idle(s.server, s.handlers[id])
      && (job.frame.header.kind == MESSAGE_TYPE_RESPONSE ||
          (Demux.IsClosing(job.frame.header) && HasFlag(job.frame.header.flags, FLAG_NO_DATA) && job.frame.body == []))
      && ServerCalls(down, s, id, call, job, t)
      && t == s.(server := t.server, handlers := s.handlers[id := s.handlers[id].(closing := Some(call))])
    case ServerAnswers(id, call, job) =>
      && Heard(s, id) && job.frame.header.kind == MESSAGE_TYPE_RESPONSE
      && ServerCalls(down, s, id, call, job, t) && t == s.(server := t.server)
    case _ => false
  }

  /** The client's reader decodes its next frame from what has arrived, and opens it. */
  ghost predicate ReadNext(down: Way, s: State, n: nat, t: State) {
    && n <= |s.server.wire|
    && var events := AsyncFraming.Receive(s.server.wire[..n]);
    && s.received < |events|
    && match events[s.received]
       case Message(f) =>
         var (outcome, next) := OpenFrame(down, s.unsealed, f, false);
         && ClientCore.ReaderNext(s.client, ClientCore.Route(Demux.Inbound(f.header, outcome)), t.client)
         && t == s.(client := t.client, received := s.received + 1, unsealed := next)
       case Failed(h) =>
         && ClientCore.ReaderNext(s.client, ClientCore.Route(Demux.SizeError(h)), t.client)
         && t == s.(client := t.client, received := s.received + 1)
       case Disconnect => false
  }

  /** Whatever frame has arrived and whatever the pipeline makes of it, a reader that is ready routes it. */
  lemma ReaderTakesAnyFrame(down: Way, s: State, n: nat) returns (t: State)
    requires s.client.reader.Ready? && n <= |s.server.wire| && s.received < |AsyncFraming.Receive(s.server.wire[..n])|
    requires !AsyncFraming.Receive(s.server.wire[..n])[s.received].Disconnect?
    ensures ReadNext(down, s, n, t) && t.received == s.received + 1
  {
    match AsyncFraming.Receive(s.server.wire[..n])[s.received] {
      case Message(f) =>
        var (outcome, next) := OpenFrame(down, s.unsealed, f, false);
        Demux.OpenFrameIsOpened(down, s.unsealed, f, false);
        var client := AfterRoute(s.client, Demux.Inbound(f.header, outcome));
        t := s.(client := client, received := s.received + 1, unsealed := next);
      case Failed(h) =>
        var client := AfterRoute(s.client, Demux.SizeError(h));
        t := s.(client := client, received := s.received + 1);
    }
  }

  lemma AfterRoute(s: ClientCore.State, e: Demux.Event) returns (t: ClientCore.State)
    requires s.reader.Ready? && (e.Inbound? || e.SizeError?) && Demux.Opened(e)
    ensures ClientCore.ReaderNext(s, ClientCore.Route(e), t)
  {
    var id, item := ClientCore.StreamOf(e), ClientCore.Routed(e);
    t := s.(events := s.events + [e],
            reader := if id in s.registry then ClientCore.Posting(id, s.registry[id], item) else ClientCore.Ready,
            registry := if Demux.Terminal(item) then s.registry - {id} else s.registry);
  }

  ghost predicate Next(up: Way, down: Way, s: State, a: Action, t: State) {
    match a
    case Client(b) =>
      && !(b.ByReader? && b.readerOp.Route?)
      && ClientCore.Next(up, s.client, b, t.client) && t == s.(client := t.client)
    case ClientReads(n) => ReadNext(down, s, n, t)
    case Server(o) =>
      && !(o.ByCall? && o.op.Call?)
      && Outbound.Next(down, s.server, o, t.server) && t == s.(server := t.server)
    case _ => HandlerNext(down, s, a, t)
  }

  datatype Run = Run(states: seq<State>, actions: seq<Action>)

  ghost predicate Step(up: Way, down: Way, r: Run, i: nat) {
    i < |r.actions| && |r.states| == |r.actions| + 1 && Next(up, down, r.states[i], r.actions[i], r.states[i + 1])
  }

  ghost predicate IsRun(up: Way, down: Way, r: Run) {
    && |r.states| == |r.actions| + 1 && Init(r.states[0])
    && forall i :: 0 <= i < |r.actions| ==> Step(up, down, r, i)
  }

  // ---------------------------------------------------- the two halves apart

  lemma ClientHalf(up: Way, down: Way, s: State, a: Action, t: State)
    requires Next(up, down, s, a, t)
    ensures t.client == s.client || exists b: ClientCore.Action :: ClientCore.Next(up, s.client, b, t.client)
  {
    if a.Client? {
      assert ClientCore.Next(up, s.client, a.a, t.client);
    } else if a.ClientReads? {
      var f := AsyncFraming.Receive(s.server.wire[..a.n])[s.received];
      if f.Message? {
        var e := Demux.Inbound(f.frame.header, OpenFrame(down, s.unsealed, f.frame, false).0);
        assert ClientCore.Next(up, s.client, ClientCore.ByReader(ClientCore.Route(e)), t.client);
      } else {
        assert ClientCore.Next(up, s.client, ClientCore.ByReader(ClientCore.Route(Demux.SizeError(f.header))), t.client);
      }
    }
  }

  lemma ServerHalf(up: Way, down: Way, s: State, a: Action, t: State)
    requires Next(up, down, s, a, t)
    ensures t.server == s.server || exists o: Outbound.Action :: Outbound.Next(down, s.server, o, t.server)
  {
    if a.Server? {
      assert Outbound.Next(down, s.server, a.o, t.server);
    } else if a.HandlerSends? || a.HandlerEnds? || a.ServerAnswers? {
      assert Outbound.Next(down, s.server, Outbound.ByCall(a.call, Outbound.Call(a.job)), t.server);
    }
  }

  ghost predicate ClientSide(up: Way, c: ClientCore.State) {
    ClientCore.Inv(c) && Outbound.BaseInv(c.out) && Outbound.CounterInv(up, c.out)
  }

  ghost predicate ServerSide(down: Way, o: Outbound.State) {
    Outbound.BaseInv(o) && Outbound.CounterInv(down, o)
  }

  lemma ClientSideKept(up: Way, s: ClientCore.State, b: ClientCore.Action, t: ClientCore.State)
    requires Fits(up) && ClientSide(up, s) && ClientCore.Next(up, s, b, t) && ClientCore.Bounded(t)
    ensures ClientSide(up, t)
  {
    ClientInvariant.InvKept(up, s, b, t);
    ClientInvariant.SendingHalf(up, s, b, t);
    if t.out != s.out {
      var o: Outbound.Action :| Outbound.Next(up, s.out, o, t.out);
      ServerSideKept(up, s.out, o, t.out);
    }
  }

  lemma ServerSideKept(down: Way, s: Outbound.State, o: Outbound.Action, t: Outbound.State)
    requires Fits(down) && ServerSide(down, s) && Outbound.Next(down, s, o, t)
    ensures ServerSide(down, t)
  {
    OutboundSteps.BaseInvKept(down, s, o, t);
    OutboundSteps.CounterInvKept(down, s, o, t);
  }

  lemma ClientGrows(up: Way, down: Way, s: State, a: Action, t: State)
    requires Next(up, down, s, a, t)
    ensures |s.client.callers| <= |t.client.callers|
  {
    ClientHalf(up, down, s, a, t);
    if t.client != s.client {
      var b: ClientCore.Action :| ClientCore.Next(up, s.client, b, t.client);
      ClientInvariant.CallersOnlyGrow(up, s.client, b, t.client);
    }
  }

  lemma SidesStep(up: Way, down: Way, r: Run, i: nat)
    requires Fits(up) && Fits(down) && IsRun(up, down, r) && i < |r.actions|
    requires ClientCore.Bounded(r.states[i + 1].client)
    ensures ClientCore.Bounded(r.states[i].client)
    ensures ClientSide(up, r.states[i].client) ==> ClientSide(up, r.states[i + 1].client)
    ensures ServerSide(down, r.states[i].server) ==> ServerSide(down, r.states[i + 1].server)
  {
    var s, a, t := r.states[i], r.actions[i], r.states[i + 1];
    assert Step(up, down, r, i);
    ClientGrows(up, down, s, a, t);
    if ClientSide(up, s.client) {
      ClientHalf(up, down, s, a, t);
      if t.client != s.client {
        var b: ClientCore.Action :| ClientCore.Next(up, s.client, b, t.client);
        ClientSideKept(up, s.client, b, t.client);
      }
    }
    if ServerSide(down, s.server) {
      ServerHalf(up, down, s, a, t);
      if t.server != s.server {
        var o: Outbound.Action :| Outbound.Next(down, s.server, o, t.server);
        ServerSideKept(down, s.server, o, t.server);
      }
    }
  }

  lemma SidesStart(up: Way, down: Way, r: Run)
    requires IsRun(up, down, r)
    ensures ClientSide(up, r.states[0].client) && ServerSide(down, r.states[0].server)
  {
    OutboundSteps.InitInv(up, r.states[0].client.out);
    OutboundSteps.InitInv(down, r.states[0].server);
  }

  lemma {:induction false} SidesHold(up: Way, down: Way, r: Run, i: nat)
    requires Fits(up) && Fits(down) && IsRun(up, down, r) && i < |r.states| && ClientCore.Bounded(r.states[i].client)
    ensures ClientSide(up, r.states[i].client)
    ensures ServerSide(down, r.states[i].server)
    decreases i
  {
    if i == 0 {
      SidesStart(up, down, r);
    } else {
      SidesStep(up, down, r, i - 1);
      SidesHold(up, down, r, i - 1);
    }
  }
}
