/**
 The joined system at work: for every data frame within the limit that does not close the stream there
 is a run in which a client opens a stream, the server's handler sends the frame, and its payload arrives
 in the client's mailbox. In the same run with a unary caller it is taken as the answer, and the id stays
 registered.
 */
module EndToEndRun {
  import opened Wire
  import opened Wrappers
  import AsyncFraming
  import Demux
  import Receiver
  import O = Outbound
  import ClientCore
  import ClientRuns
  import Delivery
  import opened EndToEnd

  lemma Extend(r: Run, a: Action, t: State) returns (q: Run)
    requires IsRun(None, None, r) && Next(None, None, r.states[|r.actions|], a, t)
    ensures IsRun(None, None, q) && |q.actions| == |r.actions| + 1 && q.states[|q.actions|] == t
  {
    q := Run(r.states + [t], r.actions + [a]);
    forall i | 0 <= i < |q.actions|
      ensures Step(None, None, q, i)
    {
      if i < |r.actions| {
        assert Step(None, None, r, i);
        assert q.states[i] == r.states[i] && q.states[i + 1] == r.states[i + 1] && q.actions[i] == r.actions[i];
      }
    }
  }

  const IDLE_SERVER := O.State(map[], map[], 0, None, [], true, O.Idle, [], map[], [], [], [], [])

  /** A client's run in which nothing is read, with a server that does nothing. */
  lemma Lift(c: ClientCore.Run) returns (r: Run)
    requires ClientCore.IsRun(None, c) && ClientRuns.NoReads(c)
    ensures IsRun(None, None, r)
    ensures r.states[|r.actions|] == State(c.states[|c.actions|], IDLE_SERVER, map[], 0, 0)
  {
    r := Run(seq(|c.states|, i requires 0 <= i < |c.states| => State(c.states[i], IDLE_SERVER, map[], 0, 0)),
             seq(|c.actions|, i requires 0 <= i < |c.actions| => Client(c.actions[i])));
    forall i | 0 <= i < |r.actions|
      ensures Step(None, None, r, i)
    {
      assert ClientCore.Step(None, c, i);
    }
  }

  function Data(body: seq<Byte>, flags: Byte): Frame
    requires !Oversized(|body|) && !HasFlag(flags, FLAG_REMOTE_CLOSED)
  {
    Frame(Header(|body|, 1, MESSAGE_TYPE_DATA, flags), body)
  }

  /** The server's sending half with one call for `body`, in the given phase. */
  function ServerAt(body: seq<Byte>, flags: Byte, phase: O.Phase, lock: Option<Id>): O.State
    requires !Oversized(|body|) && !HasFlag(flags, FLAG_REMOTE_CLOSED)
  {
    IDLE_SERVER.(jobs := map[0 := O.Job(Data(body, flags), false, true, false)], phases := map[0 := phase], lock := lock)
  }

  function Queued(body: seq<Byte>, flags: Byte): O.Message
    requires !Oversized(|body|) && !HasFlag(flags, FLAG_REMOTE_CLOSED)
  {
    O.Message(0, Data(body, flags), Data(body, flags), true, false)
  }

  function Enqueued(body: seq<Byte>, flags: Byte): O.State
    requires !Oversized(|body|) && !HasFlag(flags, FLAG_REMOTE_CLOSED)
  {
    ServerAt(body, flags, O.AwaitingAck, None)
      .(queue := [Queued(body, flags)], log := [Queued(body, flags)], acks := map[0 := O.Pending])
  }

  function Written(body: seq<Byte>, flags: Byte): O.State
    requires !Oversized(|body|) && !HasFlag(flags, FLAG_REMOTE_CLOSED)
  {
    Enqueued(body, flags).(queue := [], wire := Encode(Data(body, flags)), fates := [O.Written], acks := map[0 := O.Sent(true)])
  }

  function With(c: ClientCore.State, server: O.State): State {
    State(c, server, map[1 := Handler([0], None)], 0, 0)
  }

  /** What the read loop makes of one complete frame. */
  lemma OneFrame(f: Frame)
    requires WellFormed(f) && !Oversized(f.header.length)
    ensures AsyncFraming.Receive(Encode(f)[..|Encode(f)|]) == [AsyncFraming.Message(f), AsyncFraming.Disconnect]
  {
    EncodeAllSingleton(f);
    AsyncFraming.CutStream([f], |Encode(f)|);
    assert AsyncFraming.Expected([f], |Encode(f)|) == [AsyncFraming.Delivered(f)] + AsyncFraming.Expected([f][1..], 0);
  }

  function Client0(unary: bool): ClientCore.State {
    ClientRuns.OneCaller(unary, ClientRuns.Written(unary), ClientRuns.Receiving(unary))
  }

  lemma HandlerStarts(unary: bool) returns (r: Run)
    ensures IsRun(None, None, r)
    ensures r.states[|r.actions|] == State(Client0(unary), IDLE_SERVER, map[1 := Handler([], None)], 0, 0)
  {
    var c := ClientRuns.MessageIsWritten(unary);
    r := Lift(c);
    OneFrame(ClientRuns.Opening(unary));
    var s := State(Client0(unary), IDLE_SERVER, map[], 0, 0);
    assert HeardAt(s.client.out.wire, |s.client.out.wire|, 0, 1);
    r := Extend(r, StartHandler(1), s.(handlers := map[1 := Handler([], None)]));
  }

  lemma HandlerSendsData(unary: bool, body: seq<Byte>, flags: Byte) returns (r: Run)
    requires !Oversized(|body|) && !HasFlag(flags, FLAG_REMOTE_CLOSED)
    ensures IsRun(None, None, r) && r.states[|r.actions|] == With(Client0(unary), ServerAt(body, flags, O.Reserving, None))
  {
    r := HandlerStarts(unary);
    var job := O.Job(Data(body, flags), false, true, false);
    assert IsOpenData(job.frame.header);
    var calls: seq<Id> := [];
    assert calls + [0] == [0];
    assert map[1 := Handler([], None)][1 := Handler([0], None)] == map[1 := Handler([0], None)];
    r := Extend(r, HandlerSends(1, 0, job), With(Client0(unary), ServerAt(body, flags, O.Reserving, None)));
  }

  lemma HandlerSealsData(unary: bool, body: seq<Byte>, flags: Byte) returns (r: Run)
    requires !Oversized(|body|) && !HasFlag(flags, FLAG_REMOTE_CLOSED)
    ensures IsRun(None, None, r)
    ensures r.states[|r.actions|] == With(Client0(unary), ServerAt(body, flags, O.Sealed(Data(body, flags)), Some(0)))
  {
    r := HandlerSendsData(unary, body, flags);
    assert O.Holders(map[0 := O.Reserving]) == {};
    r := Extend(r, Server(O.ByCall(0, O.Reserve)), With(Client0(unary), ServerAt(body, flags, O.Locking, None)));
    r := Extend(r, Server(O.ByCall(0, O.Acquire)), With(Client0(unary), ServerAt(body, flags, O.Locked, Some(0))));
    r := Extend(r, Server(O.ByCall(0, O.Seal)), With(Client0(unary), ServerAt(body, flags, O.Sealed(Data(body, flags)), Some(0))));
  }

  lemma HandlerEnqueuesData(unary: bool, body: seq<Byte>, flags: Byte) returns (r: Run)
    requires !Oversized(|body|) && !HasFlag(flags, FLAG_REMOTE_CLOSED)
    ensures IsRun(None, None, r) && r.states[|r.actions|] == With(Client0(unary), Enqueued(body, flags))
  {
    r := HandlerSealsData(unary, body, flags);
    var o := Enqueued(body, flags).(phases := map[0 := O.Enqueued], lock := Some(0));
    r := Extend(r, Server(O.ByCall(0, O.Enqueue)), With(Client0(unary), o));
    r := Extend(r, Server(O.ByCall(0, O.Unlock)), With(Client0(unary), Enqueued(body, flags)));
  }

  lemma ServerWritesData(unary: bool, body: seq<Byte>, flags: Byte) returns (r: Run)
    requires !Oversized(|body|) && !HasFlag(flags, FLAG_REMOTE_CLOSED)
    ensures IsRun(None, None, r) && r.states[|r.actions|] == With(Client0(unary), Written(body, flags))
  {
    r := HandlerEnqueuesData(unary, body, flags);
    var m, bytes := Queued(body, flags), Encode(Data(body, flags));
    var o1 := Enqueued(body, flags).(writer := O.Holding(m), queue := []);
    r := Extend(r, Server(O.ByWriter(O.Take)), With(Client0(unary), o1));
    var o2 := o1.(writer := O.Writing(m, 0));
    r := Extend(r, Server(O.ByWriter(O.Start)), With(Client0(unary), o2));
    var o3 := o2.(writer := O.Writing(m, |bytes|), wire := bytes, partial := bytes);
    assert bytes[0..0 + |bytes|] == bytes && [] + bytes == bytes;
    r := Extend(r, Server(O.ByWriter(O.WriteBytes(|bytes|))), With(Client0(unary), o3));
    r := Extend(r, Server(O.ByWriter(O.Finish)), With(Client0(unary), Written(body, flags)));
  }

  function Client1(unary: bool, body: seq<Byte>, flags: Byte): ClientCore.State
    requires !Oversized(|body|) && !HasFlag(flags, FLAG_REMOTE_CLOSED)
  {
    Client0(unary).(events := [Demux.Inbound(Data(body, flags).header, Ok(Data(body, flags)))],
               reader := ClientCore.Posting(1, 0, Demux.Message(Data(body, flags))))
  }

  lemma ReaderRoutesData(unary: bool, body: seq<Byte>, flags: Byte) returns (r: Run)
    requires !Oversized(|body|) && !HasFlag(flags, FLAG_REMOTE_CLOSED)
    ensures IsRun(None, None, r) && r.states[|r.actions|] == With(Client1(unary, body, flags), Written(body, flags)).(received := 1)
  {
    r := ServerWritesData(unary, body, flags);
    var s := With(Client0(unary), Written(body, flags));
    OneFrame(Data(body, flags));
    var e := Demux.Inbound(Data(body, flags).header, Ok(Data(body, flags)));
    assert ClientCore.Routed(e) == Demux.Message(Data(body, flags)) && !Demux.Terminal(ClientCore.Routed(e));
    assert ClientCore.ReaderNext(s.client, ClientCore.Route(e), Client1(unary, body, flags));
    r := Extend(r, ClientReads(|s.server.wire|), s.(client := Client1(unary, body, flags), received := 1));
  }

  function Client2(unary: bool, body: seq<Byte>, flags: Byte): ClientCore.State
    requires !Oversized(|body|) && !HasFlag(flags, FLAG_REMOTE_CLOSED)
  {
    var k := Client1(unary, body, flags).callers[0];
    Client1(unary, body, flags).(reader := ClientCore.Ready,
                   callers := [k.(box := k.box.(sent := [Demux.Message(Data(body, flags))]))])
  }

  lemma ReaderPostsData(unary: bool, body: seq<Byte>, flags: Byte) returns (r: Run)
    requires !Oversized(|body|) && !HasFlag(flags, FLAG_REMOTE_CLOSED)
    ensures IsRun(None, None, r) && r.states[|r.actions|] == With(Client2(unary, body, flags), Written(body, flags)).(received := 1)
  {
    r := ReaderRoutesData(unary, body, flags);
    var c, item := Client1(unary, body, flags), Demux.Message(Data(body, flags));
    var k := c.callers[0];
    assert k.box.sent + [item] == [item];
    assert c.callers[0 := k.(box := k.box.(sent := [item]))] == Client2(unary, body, flags).callers;
    r := Extend(r, Client(ClientCore.ByReader(ClientCore.Post)), With(Client2(unary, body, flags), Written(body, flags)).(received := 1));
  }

  /**
   What the handler sent is what the client's first `recv` returns, whatever flags the open frame has;
   and the handler's own call has returned success.
   */
  lemma DataArrives(body: seq<Byte>, flags: Byte, decode: Receiver.Decoder) returns (r: Run)
    requires !Oversized(|body|) && !HasFlag(flags, FLAG_REMOTE_CLOSED)
    ensures IsRun(None, None, r)
    ensures var s := r.states[|r.actions|];
            && |s.client.callers| == 1 && Delivery.Enqueued(s, ClientCore.IdOf(0)) == [body]
            && Receiver.Calls(false, true, s.client.callers[0].box.sent, 1, decode) == [Ok(body)]
            && 1 in s.handlers && s.handlers[1].calls == [0] && O.At(s.server, 0, O.Done(true))
  {
    r := ReaderPostsData(false, body, flags);
    var w := Written(body, flags);
    var s := With(Client2(false, body, flags), w.(phases := map[0 := O.Done(true)])).(received := 1);
    assert w.phases[0 := O.Done(true)] == s.server.phases;
    r := Extend(r, Server(O.ByCall(0, O.ReceiveAck)), s);
    assert [Queued(body, flags)][0] == Queued(body, flags);
    assert O.Ids(s.server.log) == {0};
    assert Delivery.Given(s.server.jobs, {0}, []) == [];
    FirstCall(Demux.Message(Data(body, flags)), decode);
  }

  lemma FirstCall(item: Demux.Item, decode: Receiver.Decoder)
    requires Demux.Clean([item]) && !Demux.Terminal(item)
    ensures Receiver.Calls(false, true, [item], 1, decode) == [Ok(item.frame.body)]
  {
    Receiver.ReceiveOngoing(true, item, decode);
    assert Receiver.Calls(false, true, [item][1..], 0, decode) == [];
  }

  /**
   The exception to registry ownership does happen: a handler answers a unary request with data, the
   caller takes it, forgets its guard and is over, and its id is still registered.
   */
  lemma DataLeavesIdRegistered(body: seq<Byte>, flags: Byte) returns (r: Run)
    requires !Oversized(|body|) && !HasFlag(flags, FLAG_REMOTE_CLOSED)
    ensures IsRun(None, None, r)
    ensures var s := r.states[|r.actions|].client;
            && |s.callers| == 1 && s.callers[0].unary && s.callers[0].phase.Finished?
            && s.callers[0].box.sent == [Demux.Message(Data(body, flags))] && s.callers[0].box.taken == 1
            && ClientCore.IdOf(0) in s.registry && s.registry[ClientCore.IdOf(0)] == 0
            && ClientCore.LeftOpen(s.callers[0])
  {
    r := ReaderPostsData(true, body, flags);
    var c := Client2(true, body, flags);
    var k := c.callers[0];
    var taken := c.(callers := [k.(phase := ClientCore.Closing, box := k.box.(taken := 1))]);
    assert c.callers[0 := taken.callers[0]] == taken.callers;
    r := Extend(r, Client(ClientCore.ByCaller(0, ClientCore.TakeItem)), With(taken, Written(body, flags)).(received := 1));
    var l := taken.callers[0];
    var over := taken.(callers := [l.(phase := ClientCore.Finished, box := l.box.(receiving := false))]);
    assert taken.callers[0 := over.callers[0]] == over.callers;
    var close := ClientCore.ByCaller(0, ClientCore.CallerOp.CloseReceiver);
    r := Extend(r, Client(close), With(over, Written(body, flags)).(received := 1));
  }
}
