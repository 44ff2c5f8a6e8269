/**
 The asynchronous frame reader and writer. `Parse` is the reference definition of one read;
 `Expected` describes the read loop from the sender's side of a stream that is cut somewhere.
 */
module AsyncFraming {
  import opened Wire
  import opened Wrappers
  import opened Transport
  import opened PrefixBuffer

  // An internal error ends the connection; a return error is answered on its stream.
  datatype GenMessageError = InternalError | ReturnError(header: Header)

  datatype Event = Message(frame: Frame) | Failed(header: Header) | Disconnect

  function Parse(bytes: seq<Byte>): (p: (Result<Frame, GenMessageError>, seq<Byte>))
    ensures |p.1| <= |bytes| && (bytes != [] ==> |p.1| < |bytes|)
    ensures bytes == [] ==> p.0 == Err(InternalError)
    ensures p.0.Ok? ==> WellFormed(p.0.value) && !Oversized(|p.0.value.body|)
  {
    if |bytes| < MESSAGE_HEADER_LENGTH then (Err(InternalError), [])
    else
      var h := DecodeHeader(bytes[..MESSAGE_HEADER_LENGTH]);
      var rest := bytes[MESSAGE_HEADER_LENGTH..];
      if |rest| < h.length then (Err(InternalError), [])
      else if Oversized(h.length) then (Err(ReturnError(h)), rest[h.length..])
      else (Ok(Frame(h, rest[..h.length])), rest[h.length..])
  }

  method DiscardMessageBody(conn: Conn, header: Header) returns (r: Result<(), GenMessageError>)
    modifies conn`incoming
    ensures header.length <= |old(conn.incoming)| ==>
              r == Ok(()) && conn.incoming == old(conn.incoming)[header.length..]
    ensures |old(conn.incoming)| < header.length ==> r == Err(InternalError) && conn.incoming == []
  {
    var needDiscard: nat := header.length;
    ghost var before := conn.incoming;
    while needDiscard > 0
      invariant needDiscard <= header.length && header.length - needDiscard <= |before|
      invariant conn.incoming == before[header.length - needDiscard..]
    {
      var onceDiscard := if DEFAULT_PAGE_SIZE < needDiscard then DEFAULT_PAGE_SIZE else needDiscard;
      var content := new Byte[onceDiscard];
      var read := conn.ReadExact(content);
      if read.Err? {
        return Err(InternalError);
      }
      needDiscard := needDiscard - onceDiscard;
    }
    r := Ok(());
  }

  method ReadFrom(conn: Conn) returns (r: Result<Frame, GenMessageError>)
    modifies conn`incoming
    ensures (r, conn.incoming) == Parse(old(conn.incoming))
  {
    var head := new Byte[MESSAGE_HEADER_LENGTH];
    var read := conn.ReadExact(head);
    if read.Err? {
      return Err(InternalError);
    }
    var header := DecodeHeader(head[..]);
    if Oversized(header.length) {
      var discarded := DiscardMessageBody(conn, header);
      if discarded.Err? {
        return Err(discarded.error);
      }
      return Err(ReturnError(header));
    }
    var content := new Byte[header.length];
    read := conn.ReadExact(content);
    if read.Err? {
      return Err(InternalError);
    }
    r := Ok(Frame(header, content[..]));
  }

  function Receive(bytes: seq<Byte>): seq<Event>
    decreases |bytes|
  {
    var (outcome, rest) := Parse(bytes);
    match outcome
    case Ok(f) => [Message(f)] + Receive(rest)
    case Err(ReturnError(h)) => [Failed(h)] + Receive(rest)
    case Err(InternalError) => [Disconnect]
  }

  lemma ReceiveStep(events: seq<Event>, bytes: seq<Byte>)
    ensures var (outcome, rest) := Parse(bytes);
            match outcome
            case Ok(f) => events + Receive(bytes) == (events + [Message(f)]) + Receive(rest)
            case Err(ReturnError(h)) => events + Receive(bytes) == (events + [Failed(h)]) + Receive(rest)
            case Err(InternalError) => Receive(bytes) == [Disconnect]
  {
  }

  /** The reading side of the connection task, when neither shutdown nor the writer ends it first. */
  method ReadLoop(conn: Conn) returns (events: seq<Event>)
    modifies conn`incoming
    ensures events == Receive(old(conn.incoming))
  {
    events := [];
    ghost var before := conn.incoming;
    while true
      invariant events + Receive(conn.incoming) == Receive(before)
      decreases |conn.incoming|
    {
      ghost var rest := conn.incoming;
      var message := ReadFrom(conn);
      ReceiveStep(events, rest);
      match message {
        case Ok(f) => events := events + [Message(f)];
        case Err(ReturnError(h)) => events := events + [Failed(h)];
        case Err(InternalError) =>
          events := events + [Disconnect];
          break;
      }
    }
  }

  /**
   Writes and flushes one frame. Success means that the whole frame is out; a failure leaves some
   prefix of it, which is the whole frame when only the flush failed. It fails exactly if the transport
   refused a write or the flush.
   */
  method WriteMessageBuffered(conn: Conn, header: Header, body: seq<Byte>, prefix: ByteVec)
    returns (r: Result<(), GenMessageError>)
    requires prefix.Valid()
    modifies conn`outgoing, conn`refusals, prefix
    ensures prefix.Valid() && |prefix.data| <= DEFAULT_PAGE_SIZE
    ensures DEFAULT_PAGE_SIZE <= old(prefix.capacity) ==> prefix.capacity == old(prefix.capacity)
    ensures old(conn.outgoing) <= conn.outgoing <= old(conn.outgoing) + Encode(Frame(header, body))
    ensures r.Ok? ==> conn.outgoing == old(conn.outgoing) + Encode(Frame(header, body))
    ensures conn.refusals == old(conn.refusals) + if r.Err? then 1 else 0
  {
    var taken := prefix.Fill(header, body);
    assert Encode(Frame(header, body)) == prefix.data + body[taken..];
    var written := conn.WriteAll(prefix.data);
    if written.Err? {
      return Err(InternalError);
    }
    written := conn.WriteAll(body[taken..]);
    if written.Err? {
      return Err(InternalError);
    }
    var flushed := conn.Flush();
    r := if flushed.Err? then Err(InternalError) else Ok(());
  }

  // ------------------------------------------------- both sides of the wire

  function Delivered(f: Frame): Event {
    if Oversized(f.header.length) then Failed(f.header) else Message(f)
  }

  /** The events that `fs` must cause when the stream is cut after `n` bytes. */
  function Expected(fs: seq<Frame>, n: nat): seq<Event> {
    if fs == [] || n < |Encode(fs[0])| then [Disconnect]
    else [Delivered(fs[0])] + Expected(fs[1..], n - |Encode(fs[0])|)
  }

  lemma ParseFrame(f: Frame, rest: seq<Byte>)
    requires WellFormed(f)
    ensures Parse(Encode(f) + rest)
         == (if Oversized(f.header.length) then Err(ReturnError(f.header)) else Ok(f), rest)
  {
    var bytes := Encode(f) + rest;
    HeaderRoundTrip(f.header, EncodeHeader(f.header));
    assert bytes[..MESSAGE_HEADER_LENGTH] == EncodeHeader(f.header);
    assert bytes[MESSAGE_HEADER_LENGTH..] == f.body + rest;
  }

  lemma ParseCutFrame(f: Frame, n: nat)
    requires WellFormed(f) && n < |Encode(f)|
    ensures Parse(Encode(f)[..n]) == (Err(InternalError), [])
  {
    var bytes := Encode(f)[..n];
    if MESSAGE_HEADER_LENGTH <= n {
      HeaderRoundTrip(f.header, EncodeHeader(f.header));
      assert bytes[..MESSAGE_HEADER_LENGTH] == EncodeHeader(f.header);
      assert |bytes[MESSAGE_HEADER_LENGTH..]| == n - MESSAGE_HEADER_LENGTH;
    }
  }

  lemma ReceiveFrame(f: Frame, rest: seq<Byte>)
    requires WellFormed(f)
    ensures Receive(Encode(f) + rest) == [Delivered(f)] + Receive(rest)
  {
    ParseFrame(f, rest);
  }

  lemma ReceiveCutFrame(f: Frame, n: nat)
    requires WellFormed(f) && n < |Encode(f)|
    ensures Receive(Encode(f)[..n]) == [Disconnect]
  {
    ParseCutFrame(f, n);
  }

  /** The loop yields one event per complete frame, in order, and one disconnect, wherever the cut is. */
  lemma {:induction false} CutStream(fs: seq<Frame>, n: nat)
    requires AllWellFormed(fs) && n <= |EncodeAll(fs)|
    ensures Receive(EncodeAll(fs)[..n]) == Expected(fs, n)
  {
    if fs == [] {
    } else if |Encode(fs[0])| <= n {
      var m := n - |Encode(fs[0])|;
      assert EncodeAll(fs)[..n] == Encode(fs[0]) + EncodeAll(fs[1..])[..m];
      ReceiveFrame(fs[0], EncodeAll(fs[1..])[..m]);
      CutStream(fs[1..], m);
    } else {
      assert EncodeAll(fs)[..n] == Encode(fs[0])[..n];
      ReceiveCutFrame(fs[0], n);
    }
  }

  function Messages(fs: seq<Frame>): seq<Event> {
    seq(|fs|, i requires 0 <= i < |fs| => Message(fs[i]))
  }

  lemma MessagesStep(fs: seq<Frame>, rest: seq<Event>)
    requires fs != []
    ensures Messages(fs) + rest == [Message(fs[0])] + (Messages(fs[1..]) + rest)
  {
  }

  /** Frames within the size limit come back as they were sent, then any partial frame disconnects. */
  lemma {:induction false} RoundTrip(fs: seq<Frame>, partial: seq<Byte>, last: Frame)
    requires AllWellFormed(fs) && WellFormed(last) && partial < Encode(last)
    requires forall i :: 0 <= i < |fs| ==> !Oversized(fs[i].header.length)
    ensures Receive(EncodeAll(fs) + partial) == Messages(fs) + [Disconnect]
  {
    if fs == [] {
      assert Encode(last)[..|partial|] == partial == EncodeAll(fs) + partial;
      ReceiveCutFrame(last, |partial|);
    } else {
      assert EncodeAll(fs) + partial == Encode(fs[0]) + (EncodeAll(fs[1..]) + partial);
      ReceiveFrame(fs[0], EncodeAll(fs[1..]) + partial);
      RoundTrip(fs[1..], partial, last);
      MessagesStep(fs, [Disconnect]);
    }
  }
}
