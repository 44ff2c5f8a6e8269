/**
 The client's demultiplexer: a registry from stream ids to mailboxes, and the connection reader that
 routes each inbound frame, or the error it caused, to one of them. Mailboxes are unbounded, so
 nothing here ever waits for a consumer.

 `Apply` gives the effect of one event on the registry and the mailboxes; the methods of
 `ClientReader` are proved against it. `Projection` is the reference: what a stream should find in
 its mailbox, read off the events alone.
 */
module Demux {
  import opened Wire
  import opened Wrappers
  import opened Pipeline

  type MailboxId = nat

  datatype Reason = ConnectionLost | TransformError(e: Error) | TooLarge | Malformed

  datatype Item = Message(frame: Frame) | Failure(reason: Reason)

  // `sent` is everything ever put into the mailbox; the first `taken` items have been received.
  datatype Mailbox = Mailbox(sent: seq<Item>, taken: nat, receiving: bool)

  datatype View = View(streams: map<U32, MailboxId>, mailboxes: map<MailboxId, Mailbox>)

  datatype Event =
    | Register(id: U32, box: MailboxId)                       // a caller inserts its mailbox
    | Unregister(id: U32)                                     // a guard or a receiver is dropped
    | CloseReceiver(box: MailboxId)                           // the receiving end is dropped
    | Take(box: MailboxId)                                    // the receiver takes an item
    | Inbound(header: Header, outcome: Result<Frame, Error>)  // a frame, after the inbound pipeline
    | SizeError(header: Header)                               // an oversized frame was discarded
    | Disconnected                                            // the connection failed

  predicate IsClosing(h: Header) {
    h.kind == MESSAGE_TYPE_DATA && HasFlag(h.flags, FLAG_REMOTE_CLOSED)
  }

  /** Nothing may follow this item on its stream. */
  predicate Terminal(item: Item) {
    item.Failure? || item.frame.header.kind == MESSAGE_TYPE_RESPONSE || IsClosing(item.frame.header)
  }

  // ------------------------------------------------------ one event at a time

  function Remove(v: View, id: U32): View {
    v.(streams := v.streams - {id})
  }

  function Post(v: View, box: MailboxId, item: Item): View {
    if box in v.mailboxes
    then v.(mailboxes := v.mailboxes[box := v.mailboxes[box].(sent := v.mailboxes[box].sent + [item])])
    else v
  }

  /** Whether a send into the mailbox succeeds. */
  predicate Receives(v: View, box: MailboxId) {
    box in v.mailboxes && v.mailboxes[box].receiving
  }

  function AfterSend(v: View, id: U32, box: MailboxId, item: Item): View {
    if Receives(v, box) then Post(v, box, item) else Remove(v, id)
  }

  function Lookup(v: View, id: U32): Option<MailboxId> {
    if id in v.streams then Some(v.streams[id]) else None
  }

  function AfterFail(v: View, id: U32, reason: Reason): View {
    match Lookup(v, id)
    case Some(box) => AfterSend(Remove(v, id), id, box, Failure(reason))
    case None => v
  }

  function AfterMsg(v: View, h: Header, r: Result<Frame, Error>): View {
    match r
    case Err(e) => AfterFail(v, h.streamId, TransformError(e))
    case Ok(f) =>
      if f.header.kind != MESSAGE_TYPE_RESPONSE && f.header.kind != MESSAGE_TYPE_DATA then
        AfterFail(v, h.streamId, Malformed)
      else
        match Lookup(v, h.streamId)
        case None => v
        case Some(box) =>
          AfterSend(if Terminal(Message(f)) then Remove(v, h.streamId) else v, h.streamId, box, Message(f))
  }

  function PostAll(v: View, boxes: set<MailboxId>, item: Item): View {
    v.(mailboxes := map b | b in v.mailboxes ::
         if b in boxes && v.mailboxes[b].receiving then v.mailboxes[b].(sent := v.mailboxes[b].sent + [item])
         else v.mailboxes[b])
  }

  function AfterDisconnect(v: View, reason: Reason): View {
    PostAll(v.(streams := map[]), v.streams.Values, Failure(reason))
  }

  function Apply(v: View, e: Event): View {
    match e
    case Register(id, box) =>
      v.(streams := v.streams[id := box], mailboxes := v.mailboxes[box := Mailbox([], 0, true)])
    case Unregister(id) => Remove(v, id)
    case CloseReceiver(box) =>
      if box in v.mailboxes then v.(mailboxes := v.mailboxes[box := v.mailboxes[box].(receiving := false)]) else v
    case Take(box) =>
      if box in v.mailboxes && v.mailboxes[box].taken < |v.mailboxes[box].sent|
      then v.(mailboxes := v.mailboxes[box := v.mailboxes[box].(taken := v.mailboxes[box].taken + 1)])
      else v
    case Inbound(h, r) => AfterMsg(v, h, r)
    case SizeError(h) => AfterFail(v, h.streamId, TooLarge)
    case Disconnected => AfterDisconnect(v, ConnectionLost)
  }

  function ApplyAll(v: View, events: seq<Event>): View
    decreases events
  {
    if events == [] then v else ApplyAll(Apply(v, events[0]), events[1..])
  }

  // ------------------------------------------------------------- the reader

  lemma PostOneMore(v: View, boxes: set<MailboxId>, box: MailboxId, item: Item)
    requires box !in boxes
    ensures var w := PostAll(v, boxes, item);
            PostAll(v, boxes + {box}, item) == if Receives(w, box) then Post(w, box, item) else w
  {
  }

  /** No two streams share a mailbox, and every registered mailbox exists. */
  ghost predicate Separate(v: View) {
    && (forall id :: id in v.streams ==> v.streams[id] in v.mailboxes)
    && (forall id, jd :: id in v.streams && jd in v.streams && v.streams[id] == v.streams[jd] ==> id == jd)
  }

  class ClientReader {
    var streams: map<U32, MailboxId>
    var mailboxes: map<MailboxId, Mailbox>
    const connCtx: ConnectionContext

    constructor (connCtx: ConnectionContext)
      ensures this.connCtx == connCtx && State() == View(map[], map[])
    {
      this.connCtx := connCtx;
      this.streams := map[];
      this.mailboxes := map[];
    }

    function State(): View
      reads this
    {
      View(streams, mailboxes)
    }

    method SendResult(id: U32, box: MailboxId, item: Item)
      modifies this
      ensures State() == AfterSend(old(State()), id, box, item)
    {
      if box in mailboxes && mailboxes[box].receiving {
        mailboxes := mailboxes[box := mailboxes[box].(sent := mailboxes[box].sent + [item])];
      } else {
        streams := streams - {id};
      }
    }

    method FailStream(id: U32, reason: Reason)
      modifies this
      ensures State() == AfterFail(old(State()), id, reason)
    {
      if id in streams {
        var box := streams[id];
        streams := streams - {id};
        SendResult(id, box, Failure(reason));
      }
    }

    method GetRespTx(header: Header) returns (box: Option<MailboxId>)
      modifies this
      ensures header.kind == MESSAGE_TYPE_RESPONSE || header.kind == MESSAGE_TYPE_DATA ==>
                && box == Lookup(old(State()), header.streamId)
                && State() == if header.kind == MESSAGE_TYPE_RESPONSE || IsClosing(header)
                              then Remove(old(State()), header.streamId) else old(State())
      ensures header.kind != MESSAGE_TYPE_RESPONSE && header.kind != MESSAGE_TYPE_DATA ==>
                box == None && State() == AfterFail(old(State()), header.streamId, Malformed)
    {
      box := if header.streamId in streams then Some(streams[header.streamId]) else None;
      if header.kind == MESSAGE_TYPE_RESPONSE {
        streams := streams - {header.streamId};
      } else if header.kind == MESSAGE_TYPE_DATA {
        if HasFlag(header.flags, FLAG_REMOTE_CLOSED) {
          streams := streams - {header.streamId};
        }
      } else {
        FailStream(header.streamId, Malformed);
        box := None;
      }
    }

    /** One inbound frame: the inbound pipeline first, in wire order, and then the routing. */
    method HandleMsg(msg: GenMessage)
      modifies this, msg, connCtx
      ensures var (r, next) := OpenFrame(connCtx.payloadTransform, old(connCtx.unsealed), old(Frame(msg.header, msg.payload)), false);
              && State() == AfterMsg(old(State()), old(msg.header), r)
              && connCtx.unsealed == next
    {
      var streamId := msg.header.streamId;
      var r := connCtx.Inbound(msg, false);
      if r.Err? {
        FailStream(streamId, TransformError(r.error));
        return;
      }
      var box := GetRespTx(msg.header);
      if box.Some? {
        SendResult(streamId, box.value, Message(Frame(msg.header, msg.payload)));
      }
    }

    method HandleErr(header: Header)
      modifies this
      ensures State() == AfterFail(old(State()), header.streamId, TooLarge)
    {
      FailStream(header.streamId, TooLarge);
    }

    /** Takes the whole registry at once and then tells each stream, whoever is listening. */
    method Disconnect(reason: Reason)
      requires Separate(State())
      modifies this
      ensures State() == AfterDisconnect(old(State()), reason)
    {
      var drained := streams;
      streams := map[];
      ghost var told: set<MailboxId> := {};
      while drained != map[]
        invariant streams == map[] && drained.Keys <= old(streams).Keys
        invariant forall id :: id in drained ==> drained[id] == old(streams)[id]
        invariant told <= old(streams).Values
        invariant forall id :: id in old(streams) ==> (old(streams)[id] in told <==> id !in drained)
        invariant State() == PostAll(View(map[], old(mailboxes)), told, Failure(reason))
        decreases drained.Keys
      {
        var id :| id in drained;
        var box := drained[id];
        PostOneMore(View(map[], old(mailboxes)), told, box, Failure(reason));
        drained := drained - {id};
        told := told + {box};
        if box in mailboxes && mailboxes[box].receiving {
          mailboxes := mailboxes[box := mailboxes[box].(sent := mailboxes[box].sent + [Failure(reason)])];
        }
      }
      assert told == old(streams).Values;
    }
  }

  // -------------------------------------------------------------- refinement

  /** What an event has to say to stream `id`. */
  function ItemFor(e: Event, id: U32): Option<Item> {
    match e
    case Inbound(h, r) =>
      if h.streamId != id then None
      else (match r
            case Err(err) => Some(Failure(TransformError(err)))
            case Ok(f) =>
              if f.header.kind == MESSAGE_TYPE_RESPONSE || f.header.kind == MESSAGE_TYPE_DATA then Some(Message(f))
              else Some(Failure(Malformed)))
    case SizeError(h) => if h.streamId == id then Some(Failure(TooLarge)) else None
    case Disconnected => Some(Failure(ConnectionLost))
    case _ => None
  }

  /** Whether the stream is over after the event: its terminal item, or its owner's doing. */
  predicate Ends(e: Event, id: U32, box: MailboxId) {
    || e == Unregister(id) || e == CloseReceiver(box)
    || (ItemFor(e, id).Some? && Terminal(ItemFor(e, id).value))
  }

  /** The events' items for stream `id`, cut just after the first terminal one or where its owner left. */
  function Projection(events: seq<Event>, id: U32, box: MailboxId): seq<Item>
    decreases events
  {
    if events == [] then []
    else
      var here := Addition(events[0], id);
      if Ends(events[0], id, box) then here else here + Projection(events[1..], id, box)
  }

  predicate IsRegistered(v: View, id: U32, box: MailboxId) {
    id in v.streams && v.streams[id] == box && Receives(v, box)
  }

  /** The event does not reuse the stream's id or its mailbox. */
  predicate Foreign(e: Event, id: U32, box: MailboxId) {
    e.Register? ==> e.id != id && e.box != box
  }

  predicate AllForeign(events: seq<Event>, id: U32, box: MailboxId) {
    forall i :: 0 <= i < |events| ==> Foreign(events[i], id, box)
  }

  lemma SeparateKept(v: View, e: Event)
    requires Separate(v)
    requires e.Register? ==> e.box !in v.mailboxes
    ensures Separate(Apply(v, e))
  {
  }

  /** An event that does not address a stream changes neither its registration nor its mailbox. */
  lemma Isolation(v: View, e: Event, id: U32, box: MailboxId)
    requires Separate(v) && IsRegistered(v, id, box) && Foreign(e, id, box)
    requires ItemFor(e, id) == None && !Ends(e, id, box)
    ensures IsRegistered(Apply(v, e), id, box)
    ensures Apply(v, e).mailboxes[box].sent == v.mailboxes[box].sent
    ensures e != Take(box) ==> Apply(v, e).mailboxes[box] == v.mailboxes[box]
  {
  }

  lemma Delivery(v: View, e: Event, id: U32, box: MailboxId)
    requires Separate(v) && IsRegistered(v, id, box) && ItemFor(e, id).Some?
    ensures box in Apply(v, e).mailboxes
    ensures Apply(v, e).mailboxes[box].sent == v.mailboxes[box].sent + [ItemFor(e, id).value]
    ensures if Ends(e, id, box) then id !in Apply(v, e).streams else IsRegistered(Apply(v, e), id, box)
  {
    if e.Disconnected? {
      assert box in v.streams.Values;
    }
  }

  /** The mailbox is in nobody's reach: not registered, or registered with its receiver gone. */
  predicate Detached(v: View, id: U32, box: MailboxId) {
    && box in v.mailboxes
    && (forall jd :: jd in v.streams && v.streams[jd] == box ==> jd == id && !Receives(v, box))
  }

  lemma EndDetaches(v: View, e: Event, id: U32, box: MailboxId)
    requires Separate(v) && IsRegistered(v, id, box) && Ends(e, id, box)
    ensures Detached(Apply(v, e), id, box)
  {
    if ItemFor(e, id).Some? {
      Delivery(v, e, id, box);
    }
  }

  lemma DetachedStays(v: View, e: Event, id: U32, box: MailboxId)
    requires Detached(v, id, box) && Foreign(e, id, box)
    ensures Detached(Apply(v, e), id, box)
    ensures Apply(v, e).mailboxes[box].sent == v.mailboxes[box].sent
  {
    if e.Disconnected? && Receives(v, box) {
      assert box !in v.streams.Values;
    }
  }

  lemma {:induction false} DetachedGetsNothing(v: View, events: seq<Event>, id: U32, box: MailboxId)
    requires Detached(v, id, box) && AllForeign(events, id, box)
    ensures box in ApplyAll(v, events).mailboxes
    ensures ApplyAll(v, events).mailboxes[box].sent == v.mailboxes[box].sent
    decreases events
  {
    if events != [] {
      DetachedStays(v, events[0], id, box);
      DetachedGetsNothing(Apply(v, events[0]), events[1..], id, box);
    }
  }

  /** Registrations use new mailboxes, as each call makes its own. */
  predicate FreshBoxes(v: View, events: seq<Event>)
    decreases events
  {
    events != [] ==>
      && (events[0].Register? ==> events[0].box !in v.mailboxes)
      && FreshBoxes(Apply(v, events[0]), events[1..])
  }

  /** What the event adds to the stream's mailbox. */
  function Addition(e: Event, id: U32): seq<Item> {
    match ItemFor(e, id)
    case Some(item) => [item]
    case None => []
  }

  lemma OneEvent(v: View, e: Event, id: U32, box: MailboxId)
    requires Separate(v) && IsRegistered(v, id, box) && Foreign(e, id, box)
    ensures box in Apply(v, e).mailboxes
    ensures Apply(v, e).mailboxes[box].sent == v.mailboxes[box].sent + Addition(e, id)
    ensures if Ends(e, id, box) then Detached(Apply(v, e), id, box) else IsRegistered(Apply(v, e), id, box)
  {
    if ItemFor(e, id).Some? {
      Delivery(v, e, id, box);
    } else if !Ends(e, id, box) {
      Isolation(v, e, id, box);
    }
    if Ends(e, id, box) {
      EndDetaches(v, e, id, box);
    }
  }

  /**
   Refinement: from its registration on, a stream's mailbox receives exactly the projection of the
   connection's events onto the stream, whatever else happens on other streams in between.
   */
  lemma {:induction false} MailboxIsProjection(v: View, events: seq<Event>, id: U32, box: MailboxId)
    requires Separate(v) && IsRegistered(v, id, box)
    requires FreshBoxes(v, events) && AllForeign(events, id, box)
    ensures box in ApplyAll(v, events).mailboxes
    ensures ApplyAll(v, events).mailboxes[box].sent == v.mailboxes[box].sent + Projection(events, id, box)
    decreases events
  {
    if events == [] {
    } else {
      var e, w, rest := events[0], Apply(v, events[0]), events[1..];
      assert Foreign(e, id, box) && AllForeign(rest, id, box);
      SeparateKept(v, e);
      OneEvent(v, e, id, box);
      if Ends(e, id, box) {
        DetachedGetsNothing(w, rest, id, box);
      } else {
        MailboxIsProjection(w, rest, id, box);
        assert v.mailboxes[box].sent + (Addition(e, id) + Projection(rest, id, box))
            == w.mailboxes[box].sent + Projection(rest, id, box);
      }
    }
  }

  /** What a frame has to tell its stream, in the terms of the transform and of the header's bytes. */
  predicate Conveys(x: Option<Transform>, n: nat, f: Frame, item: Item) {
    var routable := f.header.kind == MESSAGE_TYPE_RESPONSE || f.header.kind == MESSAGE_TYPE_DATA;
    match item
    case Message(g) =>
      && routable && OpensTo(x, n, f, g.body)
      && g.header == f.header.(length := Truncate(|g.body|))
    case Failure(TransformError(Others)) => !Opens(x, n, f)
    case Failure(Malformed) => Opens(x, n, f) && !routable
    case _ => false
  }

  /** The stream goes on after the frame: data, with the lowest flag bit clear. */
  predicate GoesOn(h: Header) {
    h.kind == MESSAGE_TYPE_DATA && h.flags % 2 == 0
  }

  lemma ItemConveysFrame(x: Option<Transform>, n: nat, f: Frame)
    requires f.header.length == Truncate(|f.body|)
    ensures var item := ItemFor(Inbound(f.header, OpenFrame(x, n, f, false).0), f.header.streamId);
            && item.Some? && Conveys(x, n, f, item.value)
            && (Terminal(item.value) <==> item.value.Failure? || !GoesOn(f.header))
  {
    OpensExactly(x, n, f, false, f.body);
  }

  /**
   What one inbound frame does, whatever it is. If its stream is registered and somebody receives, its
   mailbox gets one item: the opened message, or the failure if it does not open or cannot be routed;
   and the stream stays registered exactly if that is a message after which it goes on. With nobody
   receiving the stream is unregistered. No other stream is touched.
   */
  lemma ArrivingFrame(v: View, x: Option<Transform>, n: nat, f: Frame, box: MailboxId)
    requires Separate(v) && f.header.length == Truncate(|f.body|)
    requires f.header.streamId in v.streams && v.streams[f.header.streamId] == box
    ensures var w, id := Apply(v, Inbound(f.header, OpenFrame(x, n, f, false).0)), f.header.streamId;
            && w.mailboxes.Keys == v.mailboxes.Keys && box in w.mailboxes
            && (forall b :: b in v.mailboxes && b != box ==> w.mailboxes[b] == v.mailboxes[b])
            && w.streams - {id} == v.streams - {id}
            && (if Receives(v, box) then
                  && |w.mailboxes[box].sent| == |v.mailboxes[box].sent| + 1
                  && v.mailboxes[box].sent < w.mailboxes[box].sent
                  && var item := w.mailboxes[box].sent[|v.mailboxes[box].sent|];
                     Conveys(x, n, f, item) && (id in w.streams <==> item.Message? && GoesOn(f.header))
                else
                  w.mailboxes[box] == v.mailboxes[box] && id !in w.streams)
  {
    ItemConveysFrame(x, n, f);
    OpensExactly(x, n, f, false, f.body);
  }

  /** A frame whose body was too large to take in fails its stream and no other. */
  lemma OversizedFrameFails(v: View, h: Header, box: MailboxId)
    requires Separate(v) && h.streamId in v.streams && v.streams[h.streamId] == box
    ensures var w := Apply(v, SizeError(h));
            && w.streams == v.streams - {h.streamId} && box in w.mailboxes && w.mailboxes.Keys == v.mailboxes.Keys
            && (forall b :: b in v.mailboxes && b != box ==> w.mailboxes[b] == v.mailboxes[b])
            && w.mailboxes[box].sent == v.mailboxes[box].sent + if Receives(v, box) then [Failure(TooLarge)] else []
  {
  }

  /** Shape of what any receiver will find: routable messages, and nothing after a terminal item. */
  predicate Clean(items: seq<Item>) {
    && (forall i :: 0 <= i < |items| && Terminal(items[i]) ==> i == |items| - 1)
    && (forall i :: 0 <= i < |items| && items[i].Message? ==>
          && !Oversized(|items[i].frame.body|)
          && (items[i].frame.header.kind == MESSAGE_TYPE_RESPONSE || items[i].frame.header.kind == MESSAGE_TYPE_DATA))
  }

  /** What the inbound pipeline may make of a frame: it keeps the routing and lets nothing oversized through. */
  predicate Opened(e: Event) {
    e.Inbound? && e.outcome.Ok? ==>
      !Oversized(|e.outcome.value.body|) && e.outcome.value.header.(length := 0) == e.header.(length := 0)
  }

  lemma OpenFrameIsOpened(x: Option<Transform>, n: nat, f: Frame, rpcError: bool)
    ensures Opened(Inbound(f.header, OpenFrame(x, n, f, rpcError).0))
  {
  }

  predicate FromPipeline(events: seq<Event>) {
    forall i :: 0 <= i < |events| ==> Opened(events[i])
  }

  lemma {:induction false} ProjectionIsClean(events: seq<Event>, id: U32, box: MailboxId)
    requires FromPipeline(events)
    ensures Clean(Projection(events, id, box))
    decreases events
  {
    if events != [] {
      ProjectionIsClean(events[1..], id, box);
    }
  }
}
