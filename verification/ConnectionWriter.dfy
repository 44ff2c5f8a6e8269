/**
 The writer task as a loop: it takes messages from the queue until the queue ends or a write fails,
 reusing one prefix buffer. When a message's deadline or cancellation is noticed is left open.

 The loop is proved against the picture of the wire that the state machine of `Outbound` keeps:
 the complete frames of the written messages, and at most a part of one more.
 */
module ConnectionWriter {
  import opened Wire
  import opened Wrappers
  import opened Transport
  import opened PrefixBuffer
  import AsyncFraming
  import opened Outbound
  import opened OutboundSteps

  datatype WriteOutcome = Complete(result: Result<(), AsyncFraming.GenMessageError>) | Discarded | Cancelled | DeadlineElapsed

  /** What the outcome says became of the message. */
  function FateOf(o: WriteOutcome): Fate {
    match o
    case Complete(Ok(_)) => Fate.Written
    case Discarded => Fate.Discarded
    case _ => Fate.Failed
  }

  /**
   Writes one message. Only a message with a control can be discarded or interrupted, and a
   discarded one leaves nothing on the wire. A write that runs to its end fails exactly if the
   transport refused it.
   */
  method WriteMessage(conn: Conn, m: Message, prefix: ByteVec) returns (o: WriteOutcome)
    requires prefix.Valid()
    modifies conn`outgoing, conn`refusals, prefix
    ensures prefix.Valid() && (old(|prefix.data|) <= DEFAULT_PAGE_SIZE ==> |prefix.data| <= DEFAULT_PAGE_SIZE)
    ensures o.Discarded? || o.Cancelled? || o.DeadlineElapsed? ==> m.control
    ensures old(conn.outgoing) <= conn.outgoing <= old(conn.outgoing) + Encode(m.frame)
    ensures FateOf(o).Written? ==> conn.outgoing == old(conn.outgoing) + Encode(m.frame)
    ensures FateOf(o).Discarded? ==> conn.outgoing == old(conn.outgoing) && conn.refusals == old(conn.refusals)
    ensures o.Complete? ==> conn.refusals == old(conn.refusals) + if o.result.Err? then 1 else 0
  {
    if m.control {
      var cancelled: bool, expired: bool := *, *;
      if cancelled || expired {
        return WriteOutcome.Discarded;
      }
      var interrupted: bool := *;
      if interrupted {
        var taken := prefix.Fill(m.frame.header, m.frame.body);
        assert Encode(m.frame) == prefix.data + m.frame.body[taken..];
        var part := conn.Write(prefix.data + m.frame.body[taken..]);
        var late: bool := *;
        return if late then DeadlineElapsed else Cancelled;
      }
    }
    var r := AsyncFraming.WriteMessageBuffered(conn, m.frame.header, m.frame.body, prefix);
    o := Complete(r);
  }

  /** The answers on the result channels of the messages the writer finished with. */
  predicate Answered(queue: seq<Message>, fates: seq<Fate>, answers: seq<Option<bool>>) {
    && |answers| == |fates| <= |queue|
    && forall k :: 0 <= k < |fates| ==> answers[k] == if queue[k].awaitAck then Some(fates[k] == Fate.Written) else None
  }

  lemma AnsweredGrows(queue: seq<Message>, fates: seq<Fate>, answers: seq<Option<bool>>, fate: Fate, answer: Option<bool>)
    requires Answered(queue, fates, answers) && |fates| < |queue|
    requires answer == if queue[|fates|].awaitAck then Some(fate == Fate.Written) else None
    ensures Answered(queue, fates + [fate], answers + [answer])
  {
  }

  /** Only a message with a control is ever discarded. */
  predicate ControlledOnly(queue: seq<Message>, fates: seq<Fate>)
    requires |fates| <= |queue|
  {
    forall k :: 0 <= k < |fates| && fates[k] == Fate.Discarded ==> queue[k].control
  }

  lemma FatesGrow(queue: seq<Message>, fates: seq<Fate>, fate: Fate)
    requires |fates| < |queue| && ControlledOnly(queue, fates) && NoneFailed(fates)
    requires fate == Fate.Discarded ==> queue[|fates|].control
    ensures ControlledOnly(queue, fates + [fate]) && FailsLast(fates + [fate])
    ensures fate != Fate.Failed ==> NoneFailed(fates + [fate])
  {
  }

  /** At most one message fails, and it is the last one the writer touches. */
  predicate FailsLast(fates: seq<Fate>) {
    forall k :: 0 <= k < |fates| && fates[k] == Fate.Failed ==> k == |fates| - 1
  }

  predicate NoneFailed(fates: seq<Fate>) {
    forall k :: 0 <= k < |fates| ==> fates[k] != Fate.Failed
  }

  /** What one more message adds to the wire. */
  lemma WireGrows(queue: seq<Message>, fates: seq<Fate>, fate: Fate, before: seq<Byte>, partial: seq<Byte>)
    requires |fates| < |queue| && (fate.Written? ==> partial == Encode(queue[|fates|].frame))
    ensures before + CompleteBytes(queue, fates) + partial
         == before + CompleteBytes(queue, fates + [fate]) + if fate.Written? then [] else partial
  {
    if fate.Written? {
      CompleteBytesGrow(queue, fates);
    } else {
      CompleteBytesStay(queue, fates, fate);
    }
  }

  method RunWriter(conn: Conn, queue: seq<Message>) returns (fates: seq<Fate>, answers: seq<Option<bool>>, ok: bool, ghost partial: seq<Byte>)
    modifies conn`outgoing, conn`refusals
    ensures Answered(queue, fates, answers) && FailsLast(fates)
    ensures ok ==> |fates| == |queue| && NoneFailed(fates) && partial == []
    ensures !ok ==> fates != [] && fates[|fates| - 1] == Fate.Failed && partial <= Encode(queue[|fates| - 1].frame)
    ensures conn.outgoing == old(conn.outgoing) + CompleteBytes(queue, fates) + partial
    ensures ControlledOnly(queue, fates)
    ensures ok ==> conn.refusals == old(conn.refusals)
    ensures !ok ==> conn.refusals == old(conn.refusals) + 1 || queue[|fates| - 1].control
  {
    var prefix := new ByteVec();
    fates, answers, partial := [], [], [];
    var next := 0;
    ghost var before := conn.outgoing;
    while next < |queue|
      invariant 0 <= next <= |queue| && |fates| == next && prefix.Valid() && fresh(prefix)
      invariant |prefix.data| <= DEFAULT_PAGE_SIZE
      invariant Answered(queue, fates, answers) && NoneFailed(fates)
      invariant conn.outgoing == before + CompleteBytes(queue, fates)
      invariant ControlledOnly(queue, fates) && conn.refusals == old(conn.refusals)
    {
      var m := queue[next];
      ghost var sent := conn.outgoing;
      var outcome := WriteMessage(conn, m, prefix);
      var fate := FateOf(outcome);
      partial := conn.outgoing[|sent|..];
      assert conn.outgoing == sent + partial;
      WireGrows(queue, fates, fate, before, partial);
      var answer := if m.awaitAck then Some(fate == Fate.Written) else None;
      AnsweredGrows(queue, fates, answers, fate, answer);
      FatesGrow(queue, fates, fate);
      fates, answers := fates + [fate], answers + [answer];
      if fate.Failed? {
        return fates, answers, false, partial;
      }
      next := next + 1;
    }
    partial := [];
    ok := true;
  }
}
