/**
 The receiver thread of the synchronous client: it routes each response to the request that waits
 for it, and tells all of them when the connection ends. A request waits on a rendezvous channel, so
 it takes at most one answer, and an answer to a request that has gone is lost.

 `Apply` gives the effect of one event; `Verdict` is the reference: the answer a request should get,
 read off the events alone.
 */
module SyncClient {
  import opened Wire
  import opened Wrappers
  import opened Transport
  import opened Pipeline
  import SyncChannel

  type Request = nat

  datatype Failure = Malformed | TooLarge | Refused(e: Error) | NotWritten | SocketClosed

  type Answer = Result<Bytes, Failure>

  datatype View = View(waiting: map<U32, Request>, answers: map<Request, Answer>, gone: set<Request>)

  datatype Event =
    | Insert(id: U32, request: Request)     // the sender thread, before it writes the request
    | Withdraw(id: U32, request: Request, e: Failure)  // the sender thread, when it could not seal or write it
    | GiveUp(request: Request)              // the caller's timeout
    | Arrive(header: Header, buf: Answer)   // a frame, after the inbound transform
    | SocketError

  function Offer(v: View, request: Request, a: Answer): View {
    if request in v.gone || request in v.answers then v else v.(answers := v.answers[request := a])
  }

  function AfterResponse(v: View, h: Header, buf: Answer): View {
    if h.streamId !in v.waiting then v
    else if h.kind != MESSAGE_TYPE_RESPONSE then Offer(v, v.waiting[h.streamId], Err(Malformed))
    else Offer(v, v.waiting[h.streamId], buf).(waiting := v.waiting - {h.streamId})
  }

  /** Every request in `requests` that still waits gets the answer. */
  function OfferAll(v: View, requests: set<Request>, a: Answer): View {
    v.(answers := map r | r in v.answers.Keys + (requests - v.gone) :: if r in v.answers then v.answers[r] else a)
  }

  function Apply(v: View, e: Event): View {
    match e
    case Insert(id, request) => v.(waiting := v.waiting[id := request])
    case Withdraw(id, request, e) => Offer(v.(waiting := v.waiting - {id}), request, Err(e))
    case GiveUp(request) => v.(gone := v.gone + {request})
    case Arrive(h, buf) => AfterResponse(v, h, buf)
    case SocketError => OfferAll(v, v.waiting.Values, Err(SocketClosed)).(waiting := map[])
  }

  function ApplyAll(v: View, events: seq<Event>): View
    decreases events
  {
    if events == [] then v else ApplyAll(Apply(v, events[0]), events[1..])
  }

  lemma {:induction false} ApplyAllAppend(v: View, events: seq<Event>, e: Event)
    ensures ApplyAll(v, events + [e]) == Apply(ApplyAll(v, events), e)
    decreases events
  {
    if events == [] {
      assert ([] + [e])[1..] == [];
    } else {
      assert (events + [e])[1..] == events[1..] + [e] && (events + [e])[0] == events[0];
      ApplyAllAppend(Apply(v, events[0]), events[1..], e);
    }
  }

  lemma OfferOneMore(v: View, requests: set<Request>, request: Request, a: Answer)
    ensures OfferAll(v, requests + {request}, a) == Offer(OfferAll(v, requests, a), request, a)
  {
    var w := OfferAll(v, requests, a);
    if request in v.gone || request in w.answers {
      assert OfferAll(v, requests + {request}, a).answers == w.answers;
    } else {
      assert OfferAll(v, requests + {request}, a).answers == w.answers[request := a];
    }
  }

  /** The entries in `todo` are still to be told, the others have been. */
  ghost predicate PartlyTold(waiting: map<U32, Request>, todo: map<U32, Request>, told: set<Request>) {
    && (forall id :: id in todo ==> id in waiting && todo[id] == waiting[id])
    && (forall id :: id in waiting && id !in todo ==> waiting[id] in told)
    && told <= waiting.Values
    && (todo == map[] ==> told == waiting.Values)
  }

  lemma ToldOneMore(waiting: map<U32, Request>, todo: map<U32, Request>, told: set<Request>, id: U32)
    requires PartlyTold(waiting, todo, told) && id in todo
    ensures PartlyTold(waiting, todo - {id}, told + {todo[id]})
  {
  }

  class ReceiverMap {
    var waiting: map<U32, Request>
    var answers: map<Request, Answer>
    var gone: set<Request>

    constructor ()
      ensures State() == View(map[], map[], {})
    {
      waiting, answers, gone := map[], map[], {};
    }

    function State(): View
      reads this
    {
      View(waiting, answers, gone)
    }

    method Send(request: Request, a: Answer)
      modifies this
      ensures State() == Offer(old(State()), request, a)
    {
      if request !in gone && request !in answers {
        answers := answers[request := a];
      }
    }

    method TransResp(mh: Header, buf: Answer)
      modifies this
      ensures State() == AfterResponse(old(State()), mh, buf)
    {
      if mh.streamId !in waiting {
        return;
      }
      var receiver := waiting[mh.streamId];
      if mh.kind != MESSAGE_TYPE_RESPONSE {
        Send(receiver, Err(Malformed));
        return;
      }
      Send(receiver, buf);
      waiting := waiting - {mh.streamId};
    }

    /** The end of the stream: every entry is told, and the map is cleared. */
    method FailAll()
      modifies this
      ensures State() == Apply(old(State()), SocketError)
    {
      var todo := waiting;
      ghost var before := State();
      ghost var told: set<Request> := {};
      while todo != map[]
        invariant waiting == before.waiting && PartlyTold(waiting, todo, told)
        invariant State() == OfferAll(before, told, Err(SocketClosed))
        decreases todo.Keys
      {
        var id :| id in todo;
        OfferOneMore(before, told, todo[id], Err(SocketClosed));
        ToldOneMore(waiting, todo, told, id);
        Send(todo[id], Err(SocketClosed));
        told := told + {todo[id]};
        todo := todo - {id};
      }
      assert State() == OfferAll(before, before.waiting.Values, Err(SocketClosed));
      waiting := map[];
    }
  }

  /** What the receive loop's results become after the inbound transform. */
  function Arrivals(x: Option<Transform>, n: nat, events: seq<SyncChannel.Event>): seq<Event>
    decreases events
  {
    if events == [] then []
    else match events[0]
      case Dispatch(m) =>
        var (a, next) := Transformed(x, n, m);
        [Arrive(m.0, a)] + Arrivals(x, next, events[1..])
      case Skip => Arrivals(x, n, events[1..])
      case Disconnect => [SocketError] + Arrivals(x, n, events[1..])
  }

  function Transformed(x: Option<Transform>, n: nat, m: SyncChannel.Message): (Answer, nat) {
    match m.1
    case Err(_) => (Err(TooLarge), n)
    case Ok(body) =>
      var (r, next) := OpenFrame(x, n, Frame(m.0, body), false);
      (match r case Ok(f) => Ok(f.body) case Err(e) => Err(Refused(e)), next)
  }

  /** The events that the rest of a stream has for the requests, if nothing ends the receiver thread early. */
  function Inbound(x: Option<Transform>, n: nat, bytes: seq<Byte>, ending: Ending): seq<Event> {
    Arrivals(x, n, SyncChannel.Receive(bytes, ending))
  }

  lemma InboundStep(x: Option<Transform>, n: nat, bytes: seq<Byte>, ending: Ending)
    ensures var (outcome, rest) := SyncChannel.Parse(bytes, ending);
            match outcome
            case Ok(m) =>
              var (a, next) := Transformed(x, n, m);
              Inbound(x, n, bytes, ending) == [Arrive(m.0, a)] + Inbound(x, next, rest, ending)
            case Err(InvalidArgument) => Inbound(x, n, bytes, ending) == Inbound(x, n, rest, ending)
            case Err(Socket) => Inbound(x, n, bytes, ending) == [SocketError]
  {
    var (outcome, rest) := SyncChannel.Parse(bytes, ending);
    match outcome {
      case Ok(m) => HeadAndTail(SyncChannel.Dispatch(m), SyncChannel.Receive(rest, ending));
      case Err(InvalidArgument) => HeadAndTail(SyncChannel.Skip, SyncChannel.Receive(rest, ending));
      case Err(Socket) =>
        assert SyncChannel.Receive(bytes, ending) == [SyncChannel.Disconnect];
        assert Arrivals(x, n, [SyncChannel.Disconnect][1..]) == [];
    }
  }

  lemma HeadAndTail(e: SyncChannel.Event, rest: seq<SyncChannel.Event>)
    ensures ([e] + rest)[0] == e && ([e] + rest)[1..] == rest
  {
  }

  /** One frame of the stream goes from the events to come to the events that happened. */
  lemma TraceGrows(trace: seq<Event>, e: Event, rest: seq<Event>)
    ensures trace + ([e] + rest) == (trace + [e]) + rest
  {
  }

  /**
   The receiver thread. It ends with the first socket error, or before that when polling the
   connection fails or the client has been dropped; then nobody is told.
   */
  method ReceiverThread(conn: Conn, receivers: ReceiverMap, ctx: ConnectionContext) returns (quit: bool, ghost trace: seq<Event>)
    modifies conn`incoming, receivers, ctx`unsealed
    ensures receivers.State() == ApplyAll(old(receivers.State()), trace)
    ensures trace <= Inbound(ctx.payloadTransform, old(ctx.unsealed), old(conn.incoming), conn.ending)
    ensures !quit ==> trace == Inbound(ctx.payloadTransform, old(ctx.unsealed), old(conn.incoming), conn.ending)
    ensures quit ==> SocketError !in trace
  {
    ghost var x, ending := ctx.payloadTransform, conn.ending;
    ghost var before, all := receivers.State(), Inbound(x, ctx.unsealed, conn.incoming, ending);
    trace := [];
    while true
      invariant receivers.State() == ApplyAll(before, trace)
      invariant trace + Inbound(x, ctx.unsealed, conn.incoming, ending) == all
      invariant SocketError !in trace
      decreases |conn.incoming|
    {
      quit := *;
      if quit {
        return;
      }
      InboundStep(x, ctx.unsealed, conn.incoming, ending);
      ghost var n := ctx.unsealed;
      var message := SyncChannel.ReadMessage(conn);
      match message {
        case Ok((mh, y)) =>
          var buf: Answer := Err(TooLarge);
          if y.Ok? {
            var msg := new GenMessage(mh, y.value);
            var r := ctx.Inbound(msg, false);
            buf := if r.Ok? then Ok(msg.payload) else Err(Refused(r.error));
          }
          assert (buf, ctx.unsealed) == Transformed(x, n, (mh, y));
          receivers.TransResp(mh, buf);
          ApplyAllAppend(before, trace, Arrive(mh, buf));
          TraceGrows(trace, Arrive(mh, buf), Inbound(x, ctx.unsealed, conn.incoming, ending));
          trace := trace + [Arrive(mh, buf)];
        case Err(Socket) =>
          receivers.FailAll();
          ApplyAllAppend(before, trace, SocketError);
          trace := trace + [SocketError];
          return;
        case Err(InvalidArgument) =>
      }
    }
  }

  /**
   What one frame does to the request that waits on its id: it gets exactly what the body of a
   response opens to, and an error if the frame is no response, is oversized, or does not open; and the
   entry goes exactly with a response.
   */
  lemma FrameAnswers(x: Option<Transform>, n: nat, m: SyncChannel.Message, v: View, request: Request, payload: Bytes)
    requires m.0.streamId in v.waiting && v.waiting[m.0.streamId] == request
    requires request !in v.answers && request !in v.gone
    requires m.1.Ok? ==> m.0.length == Truncate(|m.1.value|)
    ensures var (a, next) := Transformed(x, n, m);
            var w := Apply(v, Arrive(m.0, a));
            && request in w.answers
            && (w.answers[request] == Ok(payload) <==>
                  m.0.kind == MESSAGE_TYPE_RESPONSE && m.1.Ok? && OpensTo(x, n, Frame(m.0, m.1.value), payload))
            && (m.1.Ok? && RefusedByTransform(x, n, Frame(m.0, m.1.value)) ==> w.answers[request].Err? && next == n)
            && (m.0.streamId in w.waiting <==> m.0.kind != MESSAGE_TYPE_RESPONSE)
  {
    if m.1.Ok? {
      OpensExactly(x, n, Frame(m.0, m.1.value), false, payload);
    }
  }

  // ------------------------------------------------------------- one answer each

  /** The event settles the request that waits on `id`. */
  predicate Settles(e: Event, id: U32) {
    (e.Arrive? && e.header.streamId == id) || (e.Withdraw? && e.id == id) || e.SocketError?
  }

  /** The answer that the events have for the request that waits on `id`. */
  function Verdict(events: seq<Event>, id: U32): Option<Answer>
    decreases events
  {
    if events == [] then None
    else if !Settles(events[0], id) then Verdict(events[1..], id)
    else
      Some(match events[0]
           case Arrive(h, buf) => if h.kind == MESSAGE_TYPE_RESPONSE then buf else Err(Malformed)
           case Withdraw(_, _, e) => Err(e)
           case _ => Err(SocketClosed))
  }

  /** Requests do not share entries. */
  ghost predicate Separate(v: View) {
    forall id, jd :: id in v.waiting && jd in v.waiting && v.waiting[id] == v.waiting[jd] ==> id == jd
  }

  /** The event does not reuse the request or its id, withdraws only what it names, and the caller stays. */
  predicate Foreign(v: View, e: Event, id: U32, request: Request) {
    && (e.Insert? ==> e.id != id && e.request != request && e.id !in v.waiting && e.request !in v.waiting.Values)
    && (e.Withdraw? ==> (e.id == id <==> e.request == request))
    && (e.GiveUp? ==> e.request != request)
  }

  predicate AllForeign(v: View, events: seq<Event>, id: U32, request: Request)
    decreases events
  {
    events != [] ==> Foreign(v, events[0], id, request) && AllForeign(Apply(v, events[0]), events[1..], id, request)
  }

  lemma SeparateKept(v: View, e: Event, id: U32, request: Request)
    requires Separate(v) && Foreign(v, e, id, request)
    ensures Separate(Apply(v, e))
  {
  }

  lemma {:induction false} AnswerIsFinal(v: View, events: seq<Event>, request: Request)
    requires request in v.answers
    ensures var w := ApplyAll(v, events); request in w.answers && w.answers[request] == v.answers[request]
    decreases events
  {
    if events != [] {
      AnswerIsFinal(Apply(v, events[0]), events[1..], request);
    }
  }

  /** Still waiting for its answer. */
  predicate Waits(v: View, id: U32, request: Request) {
    id in v.waiting && v.waiting[id] == request && request !in v.answers && request !in v.gone
  }

  lemma OneEvent(v: View, e: Event, id: U32, request: Request)
    requires Separate(v) && Waits(v, id, request) && Foreign(v, e, id, request)
    ensures var verdict, w := Verdict([e], id), Apply(v, e);
            if verdict.Some? then request in w.answers && w.answers[request] == verdict.value else Waits(w, id, request)
  {
    if e.SocketError? {
      assert request in v.waiting.Values;
    }
  }

  /**
   A request that does not give up gets exactly the first thing the events have for it: its
   response, the news that a frame on its id was malformed, the sender's withdrawal, or the end of the
   connection; and as long as there is none it goes on waiting.
   */
  lemma {:induction false} AnswerIsVerdict(v: View, events: seq<Event>, id: U32, request: Request)
    requires Separate(v) && Waits(v, id, request) && AllForeign(v, events, id, request)
    ensures var verdict, w := Verdict(events, id), ApplyAll(v, events);
            if verdict.Some? then request in w.answers && w.answers[request] == verdict.value else Waits(w, id, request)
    decreases events
  {
    if events != [] {
      var w := Apply(v, events[0]);
      OneEvent(v, events[0], id, request);
      SeparateKept(v, events[0], id, request);
      if request in w.answers {
        AnswerIsFinal(w, events[1..], request);
      } else {
        AnswerIsVerdict(w, events[1..], id, request);
      }
    }
  }

  lemma {:induction false} VerdictComesFromEvent(events: seq<Event>, id: U32)
    ensures Verdict(events, id).None? <==> forall i :: 0 <= i < |events| ==> !Settles(events[i], id)
    decreases events
  {
    if events != [] {
      VerdictComesFromEvent(events[1..], id);
      assert forall i :: 0 < i < |events| ==> events[i] == events[1..][i - 1];
    }
  }

  // ------------------------------------------------------- the end of the thread

  /** Events of the receiver thread only: frames and the socket error. */
  predicate FromReceiver(events: seq<Event>) {
    forall i :: 0 <= i < |events| ==> events[i].Arrive? || events[i].SocketError?
  }

  lemma {:induction false} ArrivalsAreFromReceiver(x: Option<Transform>, n: nat, events: seq<SyncChannel.Event>)
    ensures FromReceiver(Arrivals(x, n, events))
    decreases events
  {
    if events != [] {
      var next := if events[0].Dispatch? then Transformed(x, n, events[0].message).1 else n;
      ArrivalsAreFromReceiver(x, next, events[1..]);
    }
  }

  lemma {:induction false} ReceiverIsForeign(v: View, events: seq<Event>, id: U32, request: Request)
    requires FromReceiver(events)
    ensures AllForeign(v, events, id, request)
    decreases events
  {
    if events != [] {
      assert forall i :: 0 <= i < |events| - 1 ==> events[1..][i] == events[i + 1];
      ReceiverIsForeign(Apply(v, events[0]), events[1..], id, request);
    }
  }

  lemma {:induction false} ArrivalsEnd(x: Option<Transform>, n: nat, events: seq<SyncChannel.Event>, id: U32)
    requires events != [] && events[|events| - 1] == SyncChannel.Disconnect
    ensures Verdict(Arrivals(x, n, events), id).Some?
    decreases events
  {
    if |events| > 1 && !events[0].Disconnect? {
      var next := if events[0].Dispatch? then Transformed(x, n, events[0].message).1 else n;
      ArrivalsEnd(x, next, events[1..], id);
    }
  }

  /** When a socket error has ended the receiver thread, every request that was waiting has been answered. */
  lemma NobodyWaitsAtTheEnd(x: Option<Transform>, n: nat, bytes: seq<Byte>, ending: Ending, v: View, id: U32, request: Request)
    requires Separate(v) && Waits(v, id, request)
    ensures var events := Inbound(x, n, bytes, ending);
            && Verdict(events, id).Some? && request in ApplyAll(v, events).answers
            && ApplyAll(v, events).answers[request] == Verdict(events, id).value
  {
    var events := SyncChannel.Receive(bytes, ending);
    ArrivalsEnd(x, n, events, id);
    ArrivalsAreFromReceiver(x, n, events);
    ReceiverIsForeign(v, Arrivals(x, n, events), id, request);
    AnswerIsVerdict(v, Arrivals(x, n, events), id, request);
  }

  /**
   When the thread has ended in the other way, after some of the stream's events, exactly those
   requests are left waiting for which no frame had come.
   */
  lemma QuitLeavesWaiting(x: Option<Transform>, n: nat, bytes: seq<Byte>, ending: Ending, trace: seq<Event>, v: View,
                          id: U32, request: Request)
    requires Separate(v) && Waits(v, id, request)
    requires trace <= Inbound(x, n, bytes, ending) && SocketError !in trace
    ensures Waits(ApplyAll(v, trace), id, request)
       <==> forall i :: 0 <= i < |trace| ==> !(trace[i].Arrive? && trace[i].header.streamId == id)
  {
    var all := Inbound(x, n, bytes, ending);
    ArrivalsAreFromReceiver(x, n, SyncChannel.Receive(bytes, ending));
    assert forall i :: 0 <= i < |trace| ==> trace[i] == all[i];
    ReceiverIsForeign(v, trace, id, request);
    AnswerIsVerdict(v, trace, id, request);
    VerdictComesFromEvent(trace, id);
  }
}
