/**
 The blocking frame reader and writer of the synchronous client and server, over short reads and
 writes, with the loop that feeds the client's receiver thread.

 `Parse` is the reference definition of one read: what comes back from a given rest of the stream
 and what is left of it. `Expected` describes the receive loop from the sender's side: the frames
 that were put on the wire and the point at which the stream was cut.
 */
module SyncChannel {
  import opened Wire
  import opened Wrappers
  import opened Transport
  import opened PrefixBuffer

  // Socket ends the receive loop; a status (INVALID_ARGUMENT) does not.
  datatype Error = Socket | InvalidArgument

  type Message = (Header, Result<seq<Byte>, Error>)

  datatype Event = Dispatch(message: Message) | Skip | Disconnect

  function Min(a: nat, b: nat): nat {
    if a < b then a else b
  }

  function SocketErrorMessage(size: nat): Error {
    if size == 0 then Socket else InvalidArgument
  }

  /** One `read_message` on the rest `bytes` of a stream, and what it leaves. */
  function Parse(bytes: seq<Byte>, ending: Ending): (p: (Result<Message, Error>, seq<Byte>))
    ensures |p.1| <= |bytes| && (bytes != [] ==> |p.1| < |bytes|)
    ensures bytes == [] ==> p.0 == Err(Socket)
    ensures p.0 == Err(InvalidArgument) ==> p.1 == []
  {
    if |bytes| < MESSAGE_HEADER_LENGTH then
      (Err(if ending == Broken then Socket else SocketErrorMessage(|bytes|)), [])
    else
      var h := DecodeHeader(bytes[..MESSAGE_HEADER_LENGTH]);
      var rest := bytes[MESSAGE_HEADER_LENGTH..];
      if Oversized(h.length) then
        if |rest| < h.length && ending == Broken then (Err(Socket), [])
        else (Ok((h, Err(InvalidArgument))), rest[Min(h.length, |rest|)..])
      else if |rest| < h.length then
        (Err(if ending == Broken then Socket else SocketErrorMessage(|rest|)), [])
      else
        (Ok((h, Ok(rest[..h.length]))), rest[h.length..])
  }

  // ---------------------------------------------------------------- reading

  method ReadInto(conn: Conn, buf: array<Byte>) returns (r: Result<nat, Error>)
    modifies conn`incoming, buf
    ensures var n := Min(buf.Length, |old(conn.incoming)|);
            && conn.incoming == old(conn.incoming)[n..]
            && r == (if n < buf.Length && conn.ending == Broken then Err(Socket) else Ok(n))
            && buf[..n] == old(conn.incoming)[..n]
  {
    var len := 0;
    ghost var before := conn.incoming;
    while len < buf.Length
      invariant 0 <= len <= buf.Length && len <= |before|
      invariant conn.incoming == before[len..]
      invariant buf[..len] == before[..len]
    {
      ghost var filled := buf[..len];
      var l := conn.Read(buf, len);
      match l {
        case Ok(n) =>
          assert buf[..len + n] == before[..len + n];
          len := len + n;
          if n == 0 {
            break;
          }
        case Err(_) =>
          return Err(Socket);
      }
    }
    r := Ok(len);
  }

  method ReadCount(conn: Conn, count: nat) returns (r: Result<seq<Byte>, Error>)
    modifies conn`incoming
    ensures var n := Min(count, |old(conn.incoming)|);
            && conn.incoming == old(conn.incoming)[n..]
            && r == (if n < count && conn.ending == Broken then Err(Socket) else Ok(old(conn.incoming)[..n]))
  {
    var v := new Byte[count];
    var len := ReadInto(conn, v);
    match len {
      case Ok(n) => r := Ok(v[..n]);
      case Err(e) => r := Err(e);
    }
  }

  /** Drops `count` bytes a page at a time. A peer that closed early is not an error here. */
  method DiscardCount(conn: Conn, count: nat) returns (r: Result<(), Error>)
    modifies conn`incoming
    ensures var n := Min(count, |old(conn.incoming)|);
            && conn.incoming == old(conn.incoming)[n..]
            && r == (if n < count && conn.ending == Broken then Err(Socket) else Ok(()))
  {
    var needDiscard := count;
    ghost var before := conn.incoming;
    ghost var gone := 0;
    while needDiscard > 0
      invariant 0 <= needDiscard <= count && gone == Min(count - needDiscard, |before|)
      invariant conn.incoming == before[gone..]
      invariant conn.ending == Broken ==> gone == count - needDiscard
    {
      var onceDiscard := Min(DEFAULT_PAGE_SIZE, needDiscard);
      var read := ReadCount(conn, onceDiscard);
      ghost var n := Min(onceDiscard, |before| - gone);
      assert conn.incoming == before[gone + n..];
      if read.Err? {
        assert gone + n == |before| < count;
        return Err(read.error);
      }
      needDiscard := needDiscard - onceDiscard;
      gone := gone + n;
    }
    r := Ok(());
  }

  method ReadMessageHeader(conn: Conn) returns (r: Result<Header, Error>)
    modifies conn`incoming
    ensures var n := Min(MESSAGE_HEADER_LENGTH, |old(conn.incoming)|);
            && conn.incoming == old(conn.incoming)[n..]
            && (n == MESSAGE_HEADER_LENGTH ==> r == Ok(DecodeHeader(old(conn.incoming)[..n])))
            && (n < MESSAGE_HEADER_LENGTH ==>
                  r == Err(if conn.ending == Broken then Socket else SocketErrorMessage(n)))
  {
    var buf := new Byte[MESSAGE_HEADER_LENGTH];
    var size := ReadInto(conn, buf);
    match size {
      case Err(e) => r := Err(e);
      case Ok(n) =>
        if n != MESSAGE_HEADER_LENGTH {
          return Err(SocketErrorMessage(n));
        }
        assert buf[..] == buf[..n];
        r := Ok(DecodeHeader(buf[..]));
    }
  }

  method ReadMessage(conn: Conn) returns (r: Result<Message, Error>)
    modifies conn`incoming
    ensures (r, conn.incoming) == Parse(old(conn.incoming), conn.ending)
  {
    var header := ReadMessageHeader(conn);
    if header.Err? {
      return Err(header.error);
    }
    var mh := header.value;
    if Oversized(mh.length) {
      var discarded := DiscardCount(conn, mh.length);
      if discarded.Err? {
        return Err(discarded.error);
      }
      return Ok((mh, Err(InvalidArgument)));
    }
    var read := ReadCount(conn, mh.length);
    if read.Err? {
      return Err(read.error);
    }
    var size := |read.value|;
    if size != mh.length {
      return Err(SocketErrorMessage(size));
    }
    r := Ok((mh, Ok(read.value)));
  }

  /** What the receive loop does with the rest `bytes` of a stream. */
  function Receive(bytes: seq<Byte>, ending: Ending): (events: seq<Event>)
    ensures events != [] && events[|events| - 1] == Disconnect
    decreases |bytes|
  {
    var (outcome, rest) := Parse(bytes, ending);
    match outcome
    case Ok(m) => [Dispatch(m)] + Receive(rest, ending)
    case Err(InvalidArgument) => [Skip] + Receive(rest, ending)
    case Err(Socket) => [Disconnect]
  }

  lemma ReceiveStep(events: seq<Event>, bytes: seq<Byte>, ending: Ending)
    ensures var (outcome, rest) := Parse(bytes, ending);
            match outcome
            case Ok(m) => events + Receive(bytes, ending) == (events + [Dispatch(m)]) + Receive(rest, ending)
            case Err(InvalidArgument) => events + Receive(bytes, ending) == (events + [Skip]) + Receive(rest, ending)
            case Err(Socket) => Receive(bytes, ending) == [Disconnect]
  {
  }

  /**
   The receiver thread's loop: it ends with the first socket error, or before that when polling the
   connection fails or the client is gone.
   */
  method ReceiveLoop(conn: Conn) returns (events: seq<Event>, quit: bool)
    modifies conn`incoming
    ensures events <= Receive(old(conn.incoming), conn.ending)
    ensures !quit ==> events == Receive(old(conn.incoming), conn.ending)
    ensures quit ==> Disconnect !in events
  {
    events := [];
    ghost var before := conn.incoming;
    while true
      invariant events + Receive(conn.incoming, conn.ending) == Receive(before, conn.ending)
      invariant Disconnect !in events
      decreases |conn.incoming|
    {
      quit := *;
      if quit {
        return;
      }
      ghost var rest := conn.incoming;
      var message := ReadMessage(conn);
      ReceiveStep(events, rest, conn.ending);
      match message {
        case Ok(m) => events := events + [Dispatch(m)];
        case Err(Socket) =>
          events := events + [Disconnect];
          return;
        case Err(InvalidArgument) => events := events + [Skip];
      }
    }
  }

  // ---------------------------------------------------------------- writing

  /**
   Writes one frame through a reused prefix buffer. On success exactly the header and the body have
   gone out; on failure a proper prefix of them has. It fails exactly if a write took nothing.
   */
  method WriteFrame(conn: Conn, header: Header, body: seq<Byte>, prefix: ByteVec) returns (r: Result<(), Error>)
    requires prefix.Valid()
    modifies conn`outgoing, conn`refusals, prefix
    ensures prefix.Valid() && |prefix.data| <= DEFAULT_PAGE_SIZE
    ensures DEFAULT_PAGE_SIZE <= old(prefix.capacity) ==> prefix.capacity == old(prefix.capacity)
    ensures old(conn.outgoing) <= conn.outgoing <= old(conn.outgoing) + Encode(Frame(header, body))
    ensures r.Ok? <==> conn.outgoing == old(conn.outgoing) + Encode(Frame(header, body))
    ensures conn.refusals == old(conn.refusals) + if r.Err? then 1 else 0
  {
    var taken := prefix.Fill(header, body);
    ghost var before := conn.outgoing;
    ghost var frame := Encode(Frame(header, body));
    var chunks := [prefix.data, body[taken..]];
    assert frame == chunks[0] + chunks[1];
    var i := 0;
    while i < 2
      modifies conn`outgoing, conn`refusals
      invariant 0 <= i <= 2 && conn.refusals == old(conn.refusals)
      invariant conn.outgoing == before + (if i == 0 then [] else if i == 1 then chunks[0] else frame)
    {
      var written := conn.WriteAll(chunks[i]);
      if written.Err? {
        return Err(Socket);
      }
      i := i + 1;
    }
    r := Ok(());
  }

  /** The response thread: frames go out in queue order through one reused buffer until one fails. */
  method WriteQueue(conn: Conn, queue: seq<Frame>) returns (sent: nat)
    modifies conn`outgoing, conn`refusals
    ensures sent <= |queue|
    ensures conn.refusals == old(conn.refusals) + if sent < |queue| then 1 else 0
    ensures sent == |queue| ==> conn.outgoing == old(conn.outgoing) + EncodeAll(queue)
    ensures sent < |queue| ==>
              exists partial :: partial < Encode(queue[sent])
                && conn.outgoing == old(conn.outgoing) + EncodeAll(queue[..sent]) + partial
  {
    var prefix := new ByteVec();
    sent := 0;
    ghost var before := conn.outgoing;
    while sent < |queue|
      invariant sent <= |queue| && prefix.Valid() && fresh(prefix) && conn.refusals == old(conn.refusals)
      invariant conn.outgoing == before + EncodeAll(queue[..sent])
    {
      ghost var start := conn.outgoing;
      var r := WriteFrame(conn, queue[sent].header, queue[sent].body, prefix);
      assert Frame(queue[sent].header, queue[sent].body) == queue[sent];
      if r.Err? {
        ghost var partial := conn.outgoing[|start|..];
        assert conn.outgoing == start + partial && partial < Encode(queue[sent]);
        return;
      }
      EncodeAllAppend(queue[..sent], [queue[sent]]);
      EncodeAllSingleton(queue[sent]);
      assert queue[..sent + 1] == queue[..sent] + [queue[sent]];
      sent := sent + 1;
    }
    assert queue[..sent] == queue;
  }

  // ------------------------------------------------- both sides of the wire

  /** What one frame on the wire must turn into. */
  function Delivered(f: Frame): Message
    requires WellFormed(f)
  {
    (f.header, if Oversized(f.header.length) then Err(InvalidArgument) else Ok(f.body))
  }

  /** What follows the last complete frame when `n` bytes of frame `f` arrived before the cut. */
  function CutTail(f: Frame, n: nat, ending: Ending): seq<Event>
    requires WellFormed(f)
  {
    if n == 0 || ending == Broken then [Disconnect]
    else if n < MESSAGE_HEADER_LENGTH then [Skip, Disconnect]
    else if Oversized(f.header.length) then [Dispatch(Delivered(f)), Disconnect]
    else if n == MESSAGE_HEADER_LENGTH then [Disconnect]
    else [Skip, Disconnect]
  }

  /** The events that `fs` must cause when the stream is cut after `n` bytes. */
  function Expected(fs: seq<Frame>, n: nat, ending: Ending): seq<Event>
    requires AllWellFormed(fs)
  {
    if fs == [] then [Disconnect]
    else if |Encode(fs[0])| <= n then
      [Dispatch(Delivered(fs[0]))] + Expected(fs[1..], n - |Encode(fs[0])|, ending)
    else CutTail(fs[0], n, ending)
  }

  /** A read that starts on a frame boundary ends on the next one. */
  lemma ParseFrame(f: Frame, rest: seq<Byte>, ending: Ending)
    requires WellFormed(f)
    ensures Parse(Encode(f) + rest, ending) == (Ok(Delivered(f)), rest)
  {
    var bytes := Encode(f) + rest;
    HeaderRoundTrip(f.header, EncodeHeader(f.header));
    assert bytes[..MESSAGE_HEADER_LENGTH] == EncodeHeader(f.header);
    assert bytes[MESSAGE_HEADER_LENGTH..] == f.body + rest;
  }

  lemma ReceiveFrame(f: Frame, rest: seq<Byte>, ending: Ending)
    requires WellFormed(f)
    ensures Receive(Encode(f) + rest, ending) == [Dispatch(Delivered(f))] + Receive(rest, ending)
  {
    ParseFrame(f, rest, ending);
  }

  lemma ParseCutFrame(f: Frame, n: nat, ending: Ending)
    requires WellFormed(f) && n < |Encode(f)|
    ensures Receive(Encode(f)[..n], ending) == CutTail(f, n, ending)
  {
    var bytes := Encode(f)[..n];
    assert Receive([], ending) == [Disconnect];
    if MESSAGE_HEADER_LENGTH <= n {
      HeaderRoundTrip(f.header, EncodeHeader(f.header));
      assert bytes[..MESSAGE_HEADER_LENGTH] == EncodeHeader(f.header);
      assert |bytes[MESSAGE_HEADER_LENGTH..]| == n - MESSAGE_HEADER_LENGTH < f.header.length;
    }
    assert Parse(bytes, ending).1 == [];
  }

  /**
   Wherever the stream is cut, the loop delivers one result per complete frame, oversized frames
   included, stays on frame boundaries, makes at most one further failing read, and stops.
   */
  lemma {:induction false} CutStream(fs: seq<Frame>, n: nat, ending: Ending)
    requires AllWellFormed(fs) && n <= |EncodeAll(fs)|
    ensures Receive(EncodeAll(fs)[..n], ending) == Expected(fs, n, ending)
  {
    var bytes := EncodeAll(fs)[..n];
    if fs == [] {
    } else if |Encode(fs[0])| <= n {
      var m := n - |Encode(fs[0])|;
      assert bytes == Encode(fs[0]) + EncodeAll(fs[1..])[..m];
      ReceiveFrame(fs[0], EncodeAll(fs[1..])[..m], ending);
      CutStream(fs[1..], m, ending);
    } else {
      assert bytes == Encode(fs[0])[..n];
      ParseCutFrame(fs[0], n, ending);
    }
  }

  function Dispatches(fs: seq<Frame>): seq<Event> {
    seq(|fs|, i requires 0 <= i < |fs| => Dispatch((fs[i].header, Ok(fs[i].body))))
  }

  lemma DispatchesStep(fs: seq<Frame>, rest: seq<Event>)
    requires fs != []
    ensures Dispatches(fs) + rest == [Dispatch((fs[0].header, Ok(fs[0].body)))] + (Dispatches(fs[1..]) + rest)
  {
  }

  /** Frames within the size limit come back as they were sent, in order. */
  lemma {:induction false} RoundTrip(fs: seq<Frame>, ending: Ending)
    requires AllWellFormed(fs)
    requires forall i :: 0 <= i < |fs| ==> !Oversized(fs[i].header.length)
    ensures Receive(EncodeAll(fs), ending) == Dispatches(fs) + [Disconnect]
  {
    if fs == [] {
      assert Receive([], ending) == [Disconnect];
    } else {
      ReceiveFrame(fs[0], EncodeAll(fs[1..]), ending);
      RoundTrip(fs[1..], ending);
      DispatchesStep(fs, [Disconnect]);
    }
  }

  /** What the loop has to say of a cut stream: results, then at most one failing read, then the end. */
  predicate OneExtraReadAtMost(events: seq<Event>) {
    && events != [] && events[|events| - 1] == Disconnect
    && (forall i :: 0 <= i < |events| - 1 ==> events[i] != Disconnect)
    && (forall i :: 0 <= i < |events| - 2 ==> events[i].Dispatch?)
  }

  lemma {:induction false} ExpectedIsShort(fs: seq<Frame>, n: nat, ending: Ending)
    requires AllWellFormed(fs)
    ensures OneExtraReadAtMost(Expected(fs, n, ending))
  {
    if fs != [] && |Encode(fs[0])| <= n {
      ExpectedIsShort(fs[1..], n - |Encode(fs[0])|, ending);
    }
  }

  /** How many results and how many failing reads a cut stream causes. */
  lemma AtMostOneExtraRead(fs: seq<Frame>, n: nat, ending: Ending)
    requires AllWellFormed(fs) && n <= |EncodeAll(fs)|
    ensures OneExtraReadAtMost(Receive(EncodeAll(fs)[..n], ending))
  {
    CutStream(fs, n, ending);
    ExpectedIsShort(fs, n, ending);
  }
}
