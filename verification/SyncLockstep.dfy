/**
 The synchronous response path from end to end: any number of handler threads call
 `send_response_sync`, one response thread writes the queue, and the client's receiver thread opens
 what arrives. A call is one step, as it runs under the outbound mutex; the queue closes when the
 response thread ends.
 */
module SyncLockstep {
  import opened Wire
  import opened Wrappers
  import opened Transport
  import opened Pipeline
  import SyncChannel
  import SyncClient

  // `responses` are the responses that entered the queue, `queue` what they were sealed to.
  datatype State = State(counter: nat, open: bool, responses: seq<Frame>, queue: seq<Frame>)

  datatype Action = Respond(response: Frame) | Close

  ghost predicate Next(x: Option<Transform>, s: State, a: Action, t: State) {
    match a
    case Respond(f) =>
      && f.header.length == Truncate(|f.body|)
      && var (r, next) := SealFrame(x, s.counter, f, true);
         t == if r.Ok? && s.open then s.(counter := next, responses := s.responses + [f], queue := s.queue + [r.value])
              else s.(counter := next)
    case Close => t == s.(open := false)
  }

  datatype Run = Run(states: seq<State>, actions: seq<Action>)

  ghost predicate Step(x: Option<Transform>, r: Run, i: nat) {
    i < |r.actions| && |r.states| == |r.actions| + 1 && Next(x, r.states[i], r.actions[i], r.states[i + 1])
  }

  ghost predicate IsRun(x: Option<Transform>, r: Run) {
    && |r.states| == |r.actions| + 1 && r.states[0] == State(0, true, [], [])
    && forall i :: 0 <= i < |r.actions| ==> Step(x, r, i)
  }

  ghost predicate Inv(x: Option<Transform>, s: State) {
    && SealedInOrder(x, 0, s.responses, s.queue)
    && (x.Some? && s.open ==> s.counter == |s.queue|)
    && (x.None? ==> s.counter == 0)
  }

  lemma InvKept(x: Option<Transform>, s: State, a: Action, t: State)
    requires Fits(x) && Inv(x, s) && Next(x, s, a, t)
    ensures Inv(x, t)
  {
    if a.Respond? {
      SealThenOpen(x, s.counter, a.response, true);
    }
  }

  /**
   Lockstep: in every run response `k` of the queue was sealed at counter `k`, and while the queue
   is open the counter is exactly the number of responses in it; a refused one has cost nothing.
   */
  lemma {:induction false} QueueIsSealedInOrder(x: Option<Transform>, r: Run, i: nat)
    requires Fits(x) && IsRun(x, r) && i < |r.states|
    ensures Inv(x, r.states[i])
  {
    if i > 0 {
      assert Step(x, r, i - 1);
      QueueIsSealedInOrder(x, r, i - 1);
      InvKept(x, r.states[i - 1], r.actions[i - 1], r.states[i]);
    }
  }

  /** The responses as they should reach the waiting requests. */
  function Answers(responses: seq<Frame>, queue: seq<Frame>): seq<SyncClient.Event>
    requires |responses| == |queue|
  {
    seq(|queue|, k requires 0 <= k < |queue| => SyncClient.Arrive(queue[k].header, Ok(responses[k].body)))
  }

  lemma AnswersStep(responses: seq<Frame>, queue: seq<Frame>, m: nat, tail: seq<SyncClient.Event>)
    requires |responses| == |queue| && m < |queue|
    ensures [SyncClient.Arrive(queue[0].header, Ok(responses[0].body))] + (Answers(responses[1..][..m], queue[1..][..m]) + tail)
         == Answers(responses[..m + 1], queue[..m + 1]) + tail
  {
  }

  lemma FirstAnswer(x: Option<Transform>, n: nat, response: Frame, f: Frame, rest: seq<SyncChannel.Event>)
    requires Fits(x) && WellFormed(f) && response.header.length == Truncate(|response.body|)
    requires SealFrame(x, n, response, false).0 == Ok(f)
    ensures SyncClient.Arrivals(x, n, [SyncChannel.Dispatch(SyncChannel.Delivered(f))] + rest)
         == [SyncClient.Arrive(f.header, Ok(response.body))] + SyncClient.Arrivals(x, if x.Some? then n + 1 else n, rest)
  {
    SealThenOpen(x, n, response, false);
    SyncClient.HeadAndTail(SyncChannel.Dispatch(SyncChannel.Delivered(f)), rest);
    assert Frame(f.header, f.body) == f;
  }

  lemma FirstFrameAnswers(x: Option<Transform>, n: nat, responses: seq<Frame>, queue: seq<Frame>, cut: nat, ending: Ending)
    requires Fits(x) && SealedInOrder(x, n, responses, queue) && AllWellFormed(queue)
    requires queue != [] && |Encode(queue[0])| <= cut
    ensures SyncClient.Arrivals(x, n, SyncChannel.Expected(queue, cut, ending))
         == [SyncClient.Arrive(queue[0].header, Ok(responses[0].body))]
          + SyncClient.Arrivals(x, if x.Some? then n + 1 else n,
                                SyncChannel.Expected(queue[1..], cut - |Encode(queue[0])|, ending))
  {
    FirstAnswer(x, n, responses[0], queue[0], SyncChannel.Expected(queue[1..], cut - |Encode(queue[0])|, ending));
  }

  lemma {:induction false} CutQueueAnswers(x: Option<Transform>, n: nat, responses: seq<Frame>, queue: seq<Frame>,
                                           cut: nat, ending: Ending) returns (m: nat)
    requires Fits(x) && SealedInOrder(x, n, responses, queue) && AllWellFormed(queue)
    ensures m <= |queue|
    ensures SyncClient.Arrivals(x, n, SyncChannel.Expected(queue, cut, ending))
         == Answers(responses[..m], queue[..m]) + [SyncClient.SocketError]
    ensures cut == |EncodeAll(queue)| ==> m == |queue|
    decreases |queue|
  {
    if queue == [] || cut < |Encode(queue[0])| {
      m := 0;
      FirstFits(x, n, responses, queue);
      TailIsError(x, n, queue, cut, ending);
    } else {
      var next := if x.Some? then n + 1 else n;
      SealedTail(x, n, responses, queue);
      FirstFrameAnswers(x, n, responses, queue, cut, ending);
      var k := CutQueueAnswers(x, next, responses[1..], queue[1..], cut - |Encode(queue[0])|, ending);
      m := k + 1;
      AnswersStep(responses, queue, k, [SyncClient.SocketError]);
    }
  }

  lemma FirstFits(x: Option<Transform>, n: nat, responses: seq<Frame>, queue: seq<Frame>)
    requires Fits(x) && SealedInOrder(x, n, responses, queue)
    ensures queue != [] ==> !Oversized(queue[0].header.length)
  {
    if queue != [] {
      SealThenOpen(x, n, responses[0], false);
    }
  }

  lemma SealedTail(x: Option<Transform>, n: nat, responses: seq<Frame>, queue: seq<Frame>)
    requires SealedInOrder(x, n, responses, queue) && queue != []
    ensures SealedInOrder(x, if x.Some? then n + 1 else n, responses[1..], queue[1..])
  {
    forall k | 0 <= k < |queue| - 1
      ensures responses[1..][k] == responses[k + 1] && queue[1..][k] == queue[k + 1]
    {
    }
  }

  /** A cut frame, or the end of the stream, is no answer to anybody. */
  lemma TailIsError(x: Option<Transform>, n: nat, queue: seq<Frame>, cut: nat, ending: Ending)
    requires Fits(x) && AllWellFormed(queue) && (queue == [] || cut < |Encode(queue[0])|)
    requires queue != [] ==> !Oversized(queue[0].header.length)
    ensures SyncClient.Arrivals(x, n, SyncChannel.Expected(queue, cut, ending)) == [SyncClient.SocketError]
  {
    var tail := [SyncChannel.Disconnect];
    assert SyncClient.Arrivals(x, n, tail[1..]) == [];
    assert SyncClient.Arrivals(x, n, tail) == [SyncClient.SocketError];
    assert [SyncChannel.Skip, SyncChannel.Disconnect][1..] == tail;
  }

  /**
   Whatever part of the queue's bytes has reached the client when the stream ends, in whatever way,
   its receiver thread hands out exactly the first responses, opened, in order; and all of them if
   all bytes arrived.
   */
  lemma ClientOpensInOrder(x: Option<Transform>, r: Run, i: nat, cut: nat, ending: Ending) returns (m: nat)
    requires Fits(x) && IsRun(x, r) && i < |r.states| && cut <= |EncodeAll(r.states[i].queue)|
    ensures var s := r.states[i];
            && |s.responses| == |s.queue| && m <= |s.queue|
            && SyncClient.Inbound(x, 0, EncodeAll(s.queue)[..cut], ending)
            == Answers(s.responses[..m], s.queue[..m]) + [SyncClient.SocketError]
            && (cut == |EncodeAll(s.queue)| ==> m == |s.queue|)
  {
    var s := r.states[i];
    QueueIsSealedInOrder(x, r, i);
    forall k | 0 <= k < |s.queue|
      ensures WellFormed(s.queue[k])
    {
      SealThenOpen(x, if x.Some? then k else 0, s.responses[k], false);
    }
    SyncChannel.CutStream(s.queue, cut, ending);
    m := CutQueueAnswers(x, 0, s.responses, s.queue, cut, ending);
  }
}
