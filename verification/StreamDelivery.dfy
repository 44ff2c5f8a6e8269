/**
 The end-to-end theorem: what `recv` yields on a client's stream, against what the stream's handler
 on the server enqueued.
 */
module StreamDelivery {
  import opened Wire
  import opened Wrappers
  import opened Pipeline
  import opened Demux
  import Outbound
  import ClientCore
  import Receiver
  import EndToEnd
  import Delivery

  predicate IsOpenItem(item: Item) {
    item.Message? && EndToEnd.IsOpenData(item.frame.header)
  }

  predicate IsClosingItem(item: Item) {
    item.Message? && IsClosing(item.frame.header)
  }

  /** The payloads of the data messages among the items. */
  function DataOf(items: seq<Item>): seq<Bytes> {
    if items == [] then []
    else
      var item := items[|items| - 1];
      DataOf(items[..|items| - 1]) + if IsOpenItem(item) then [item.frame.body] else []
  }

  lemma DataOfExtended(items: seq<Item>, more: seq<Item>)
    requires |more| <= 1
    ensures DataOf(items + more)
         == DataOf(items) + if more != [] && IsOpenItem(more[0]) then [more[0].frame.body] else []
  {
    if more == [] {
      assert items + more == items;
    } else {
      assert (items + more)[..|items|] == items;
    }
  }

  lemma {:induction false} DataOfMonotone(items: seq<Item>, n: nat)
    requires n <= |items|
    ensures DataOf(items[..n]) <= DataOf(items)
    decreases |items|
  {
    if n < |items| {
      var init := items[..|items| - 1];
      assert init[..n] == items[..n];
      DataOfMonotone(init, n);
    } else {
      assert items[..n] == items;
    }
  }

  lemma {:induction false} DataOfOpenItems(items: seq<Item>)
    requires forall k :: 0 <= k < |items| ==> IsOpenItem(items[k])
    ensures |DataOf(items)| == |items|
    ensures forall k :: 0 <= k < |items| ==> IsOpenItem(items[k]) && DataOf(items)[k] == items[k].frame.body
  {
    if items != [] {
      DataOfOpenItems(items[..|items| - 1]);
    }
  }

  lemma {:induction false} DataOfStops(items: seq<Item>, n: nat)
    requires n <= |items| && forall k :: n <= k < |items| ==> !IsOpenItem(items[k])
    ensures DataOf(items) == DataOf(items[..n])
    decreases |items|
  {
    if n < |items| {
      var init := items[..|items| - 1];
      assert init[..n] == items[..n];
      DataOfStops(init, n);
    } else {
      assert items[..n] == items;
    }
  }

  lemma {:induction false} StreamDataMonotone(log: seq<Outbound.Message>, id: U32, n: nat)
    requires n <= |log|
    ensures Delivery.StreamData(log[..n], id) <= Delivery.StreamData(log, id)
    decreases |log|
  {
    if n < |log| {
      var init := log[..|log| - 1];
      assert init[..n] == log[..n];
      StreamDataMonotone(init, id, n);
    } else {
      assert log[..n] == log;
    }
  }

  /** Once a closing frame is in the queue, the stream's data is complete. */
  lemma {:induction false} StreamDataStops(log: seq<Outbound.Message>, id: U32, n: nat)
    requires n <= |log|
    requires forall k :: n <= k < |log| ==>
               !(log[k].plain.header.streamId == id && EndToEnd.IsOpenData(log[k].plain.header))
    ensures Delivery.StreamData(log, id) == Delivery.StreamData(log[..n], id)
    decreases |log|
  {
    if n < |log| {
      var init := log[..|log| - 1];
      assert init[..n] == log[..n];
      StreamDataStops(init, id, n);
    } else {
      assert log[..n] == log;
    }
  }

  // ------------------------------------------------- a caller's items and the log

  /** The item is one of the first `n` messages of the queue, for stream `id`. */
  predicate IsFrom(log: seq<Outbound.Message>, n: nat, id: U32, item: Item, q: nat) {
    q < n && q < |log| && item == Message(log[q].plain) && log[q].plain.header.streamId == id
  }

  /** All that the log invariants say about one message. */
  predicate Proper(m: Outbound.Message) {
    var h := m.plain.header;
    && m.frame.header.streamId == h.streamId
    && (h.kind == MESSAGE_TYPE_DATA || h.kind == MESSAGE_TYPE_RESPONSE)
    && !Oversized(|m.plain.body|)
    && (IsClosing(h) ==> HasFlag(h.flags, FLAG_NO_DATA) && m.plain.body == [])
  }

  lemma LogIsProper(down: EndToEnd.Way, s: EndToEnd.State, k: nat)
    requires Fits(down) && EndToEnd.ServerSide(down, s.server) && Delivery.HandlersInv(s) && k < |s.server.log|
    ensures Proper(s.server.log[k])
  {
    Delivery.LogJob(down, s.server, k);
    assert Delivery.JobInv(s, s.server.log[k].id);
  }

  /** What the client makes of the server's messages; `events` are theirs, one by one. */
  predicate Mirrors(events: seq<Event>, log: seq<Outbound.Message>) {
    && |events| <= |log|
    && (forall k :: 0 <= k < |events| ==> events[k] == Delivery.EventOf(log[k]))
    && (forall k :: 0 <= k < |log| ==> Proper(log[k]))
  }

  lemma AdditionIsMessage(m: Outbound.Message, id: U32)
    requires Proper(m)
    ensures Addition(Delivery.EventOf(m), id) == if m.plain.header.streamId == id then [Message(m.plain)] else []
  {
  }

  /** The items a stream is due come from its messages, and carry the same data. */
  lemma {:induction false} DueIsStreamData(events: seq<Event>, log: seq<Outbound.Message>, n: nat, id: U32)
    requires Mirrors(events, log) && n <= |events|
    requires forall k :: 0 <= k < n ==> log[k].plain.header.streamId != id
    ensures DataOf(ClientCore.Due(events, n, id)) == Delivery.StreamData(log[..|events|], id)
    decreases |events|
  {
    if |events| == n {
      Delivery.NoStreamData(log[..n], id);
    } else {
      var e := |events| - 1;
      var init := events[..e];
      assert log[..|events|] == log[..e] + [log[e]];
      DueIsStreamData(init, log, n, id);
      AdditionIsMessage(log[e], id);
      DataOfExtended(ClientCore.Due(init, n, id), Addition(events[e], id));
      Delivery.StreamDataExtended(log[..e], log[e], id);
    }
  }

  lemma {:induction false} DueIsFromLog(events: seq<Event>, log: seq<Outbound.Message>, n: nat, id: U32, i: nat) returns (q: nat)
    requires Mirrors(events, log) && n <= |events| && i < |ClientCore.Due(events, n, id)|
    ensures IsFrom(log, |events|, id, ClientCore.Due(events, n, id)[i], q)
    decreases |events|
  {
    var e := |events| - 1;
    var init := events[..e];
    AdditionIsMessage(log[e], id);
    if i < |ClientCore.Due(init, n, id)| {
      q := DueIsFromLog(init, log, n, id, i);
    } else {
      q := e;
    }
  }

  /** Nothing a stream is due after its closing frame carries data. */
  lemma {:induction false} NoDataAfterClosing(events: seq<Event>, log: seq<Outbound.Message>, n: nat, id: U32, a: nat, b: nat)
    requires Mirrors(events, log) && n <= |events| && a < b < |ClientCore.Due(events, n, id)|
    requires forall k, l :: 0 <= k < l < |log| && IsClosing(log[k].plain.header) && EndToEnd.IsOpenData(log[l].plain.header) ==>
               log[k].plain.header.streamId != log[l].plain.header.streamId
    requires IsClosingItem(ClientCore.Due(events, n, id)[a])
    ensures !IsOpenItem(ClientCore.Due(events, n, id)[b])
    decreases |events|
  {
    var e := |events| - 1;
    var init := events[..e];
    AdditionIsMessage(log[e], id);
    if b < |ClientCore.Due(init, n, id)| {
      NoDataAfterClosing(init, log, n, id, a, b);
    } else {
      var q := DueIsFromLog(init, log, n, id, a);
      assert q < e;
    }
  }

  // ----------------------------------------------------------------- receiving

  /** A closing frame without data is never returned as a payload. */
  lemma {:induction false} ClosingIsNotData(items: seq<Item>, n: nat, decode: Receiver.Decoder, k: nat)
    requires Clean(items) && k < n && k < |items| && IsClosingItem(items[k])
    requires HasFlag(items[k].frame.header.flags, FLAG_NO_DATA)
    ensures Receiver.Calls(false, true, items, n, decode)[k].Err?
    decreases n
  {
    if k > 0 {
      assert !Terminal(items[0]) && Clean([items[0]]);
      Receiver.ReceiveOngoing(true, items[0], decode);
      Receiver.CleanTail(items);
      ClosingIsNotData(items[1..], n - 1, decode, k - 1);
    }
  }

  /** Where the data of a mailbox is, as long as nothing but data has come. */
  lemma DataAt(items: seq<Item>, k: nat)
    requires k < |items| && forall i :: 0 <= i < k ==> IsOpenItem(items[i])
    ensures k <= |DataOf(items)|
    ensures IsOpenItem(items[k]) ==> k < |DataOf(items)| && DataOf(items)[k] == items[k].frame.body
    ensures !IsOpenItem(items[k]) && k == |items| - 1 ==> k == |DataOf(items)|
  {
    var upTo := items[..k];
    assert items[..k + 1] == upTo + [items[k]];
    DataOfOpenItems(upTo);
    DataOfExtended(upTo, [items[k]]);
    DataOfMonotone(items, k + 1);
    if k == |items| - 1 {
      assert items == items[..k + 1];
    }
  }

  /** What recv yields: the `k`-th call returns the `k`-th payload, or the response that ends the stream. */
  predicate InOrder(items: seq<Item>, k: nat, r: Receiver.Received) {
    && k < |items| && items[k].Message?
    && if items[k].frame.header.kind == MESSAGE_TYPE_DATA then k < |DataOf(items)| && r == Ok(DataOf(items)[k])
       else k == |DataOf(items)| && k == |items| - 1
  }

  lemma ReceiveInOrder(items: seq<Item>, n: nat, decode: Receiver.Decoder, k: nat)
    requires Clean(items) && k < n
    requires forall i :: 0 <= i < |items| && IsClosingItem(items[i]) ==> HasFlag(items[i].frame.header.flags, FLAG_NO_DATA)
    requires Receiver.Calls(false, true, items, n, decode)[k].Ok?
    ensures InOrder(items, k, Receiver.Calls(false, true, items, n, decode)[k])
  {
    Receiver.PayloadsInOrder(items, n, decode, k);
    if IsClosingItem(items[k]) {
      ClosingIsNotData(items, n, decode, k);
      assert false;
    }
    forall i | 0 <= i < k
      ensures IsOpenItem(items[i])
    {
      assert !Terminal(items[i]);
    }
    DataAt(items, k);
  }

  lemma EofAfterLast(items: seq<Item>, n: nat, decode: Receiver.Decoder, k: nat)
    requires Clean(items) && k < n
    requires Receiver.Calls(false, true, items, n, decode)[k] == Err(Receiver.Eof)
    ensures k == |items| - 1 && IsClosingItem(items[k]) && k == |DataOf(items)|
    ensures forall j :: 0 <= j < k ==> Receiver.Calls(false, true, items, n, decode)[j] == Ok(DataOf(items)[j])
  {
    Receiver.EofMeansAll(items, n, decode, k);
    forall i | 0 <= i < k
      ensures IsOpenItem(items[i])
    {
      assert !Terminal(items[i]);
    }
    DataAt(items, k);
    forall j | 0 <= j < k
      ensures Receiver.Calls(false, true, items, n, decode)[j] == Ok(DataOf(items)[j])
    {
      DataAt(items, j);
    }
  }

  // ------------------------------------------------------------- the theorem

  /** Nothing for a stream follows its closing frame. */
  predicate ClosingIsLast(log: seq<Outbound.Message>) {
    forall k, l :: 0 <= k < l < |log| && IsClosing(log[k].plain.header) && EndToEnd.IsOpenData(log[l].plain.header) ==>
      log[k].plain.header.streamId != log[l].plain.header.streamId
  }

  /** What the mailbox holds was due, and perhaps the news that the connection is lost. */
  predicate IsMailboxOf(events: seq<Event>, log: seq<Outbound.Message>, n: nat, id: U32, tail: seq<Item>, sent: seq<Item>) {
    && Mirrors(events, log) && ClosingIsLast(log) && n <= |events|
    && (forall k :: 0 <= k < n ==> log[k].plain.header.streamId != id)
    && (tail == [] || tail == [Failure(ConnectionLost)])
    && sent <= ClientCore.Due(events, n, id) + tail && ClientCore.TerminalLast(sent)
  }

  lemma MailboxItem(events: seq<Event>, log: seq<Outbound.Message>, n: nat, id: U32, tail: seq<Item>, sent: seq<Item>, i: nat)
    returns (q: nat)
    requires IsMailboxOf(events, log, n, id, tail, sent) && i < |sent| && sent[i].Message?
    ensures i < |ClientCore.Due(events, n, id)| && IsFrom(log, |events|, id, sent[i], q)
  {
    assert sent[i] == (ClientCore.Due(events, n, id) + tail)[i];
    q := DueIsFromLog(events, log, n, id, i);
  }

  lemma MailboxIsFromServer(events: seq<Event>, log: seq<Outbound.Message>, n: nat, id: U32, tail: seq<Item>, sent: seq<Item>,
                            k: nat)
    requires IsMailboxOf(events, log, n, id, tail, sent) && k < |sent|
    ensures FromServer(log, id, sent[k])
  {
    if sent[k].Message? {
      var q := MailboxItem(events, log, n, id, tail, sent, k);
      assert IsFrom(log, |log|, id, sent[k], q);
    } else {
      assert sent[k] == (ClientCore.Due(events, n, id) + tail)[k];
      if k < |ClientCore.Due(events, n, id)| {
        var q := DueIsFromLog(events, log, n, id, k);
        assert false;
      }
    }
  }

  lemma MailboxIsClean(events: seq<Event>, log: seq<Outbound.Message>, n: nat, id: U32, tail: seq<Item>, sent: seq<Item>)
    requires IsMailboxOf(events, log, n, id, tail, sent)
    ensures Clean(sent)
    ensures forall i :: 0 <= i < |sent| && IsClosingItem(sent[i]) ==> HasFlag(sent[i].frame.header.flags, FLAG_NO_DATA)
  {
    forall i | 0 <= i < |sent| && sent[i].Message?
      ensures Proper(Outbound.Message(0, sent[i].frame, sent[i].frame, false, false))
    {
      var q := MailboxItem(events, log, n, id, tail, sent, i);
      assert Proper(log[q]);
    }
  }

  lemma MailboxIsPrefix(events: seq<Event>, log: seq<Outbound.Message>, n: nat, id: U32, tail: seq<Item>, sent: seq<Item>)
    requires IsMailboxOf(events, log, n, id, tail, sent)
    ensures DataOf(sent) <= Delivery.StreamData(log, id)
  {
    var due := ClientCore.Due(events, n, id);
    DueIsStreamData(events, log, n, id);
    DataOfExtended(due, tail);
    DataOfMonotone(due + tail, |sent|);
    StreamDataMonotone(log, id, |events|);
    assert sent == (due + tail)[..|sent|];
  }

  lemma ClosedMailboxIsComplete(events: seq<Event>, log: seq<Outbound.Message>, n: nat, id: U32, tail: seq<Item>, sent: seq<Item>)
    requires IsMailboxOf(events, log, n, id, tail, sent) && sent != [] && IsClosingItem(sent[|sent| - 1])
    ensures DataOf(sent) == Delivery.StreamData(log, id)
  {
    var due, a := ClientCore.Due(events, n, id), |sent| - 1;
    var q := MailboxItem(events, log, n, id, tail, sent, a);
    assert due[a] == (due + tail)[a] == sent[a];
    forall b | a < b < |due + tail|
      ensures !IsOpenItem((due + tail)[b])
    {
      if b < |due| {
        NoDataAfterClosing(events, log, n, id, a, b);
      }
    }
    DataOfStops(due + tail, |sent|);
    assert sent == (due + tail)[..|sent|];
    DataOfExtended(due, tail);
    DueIsStreamData(events, log, n, id);
    StreamDataStops(log, id, |events|);
  }

  /** A caller's mailbox in a reachable state, seen from the server's side. */
  lemma MailboxOfCaller(down: EndToEnd.Way, s: EndToEnd.State, c: ClientCore.CallerId) returns (n: nat, tail: seq<Item>)
    requires Fits(down) && EndToEnd.ServerSide(down, s.server) && ClientCore.Inv(s.client) && Delivery.Inv(down, s)
    requires c < |s.client.callers| && s.client.callers[c].box.sent != []
    ensures s.received <= |s.client.events|
    ensures IsMailboxOf(s.client.events[..s.received], s.server.log, n, ClientCore.IdOf(c), tail, s.client.callers[c].box.sent)
  {
    var k, id := s.client.callers[c], ClientCore.IdOf(c);
    assert ClientCore.CallerInv(s.client, c) && Delivery.SinceInv(s, c);
    n := k.since.value;
    tail := if |s.client.events| > s.received then [Failure(ConnectionLost)] else [];
    EventsMirrorLog(down, s);
    DueSplit(s, n, id);
    SentIsPrefix(k.box.sent, ClientCore.Inflight(s.client.reader, c));
  }

  lemma EventsMirrorLog(down: EndToEnd.Way, s: EndToEnd.State)
    requires Fits(down) && EndToEnd.ServerSide(down, s.server) && Delivery.Inv(down, s)
    ensures s.received <= |s.client.events| && Mirrors(s.client.events[..s.received], s.server.log)
    ensures ClosingIsLast(s.server.log)
  {
    forall q | 0 <= q < |s.server.log|
      ensures Proper(s.server.log[q])
    {
      LogIsProper(down, s, q);
    }
  }

  lemma SentIsPrefix(sent: seq<Item>, inflight: seq<Item>)
    requires ClientCore.TerminalLast(sent + inflight)
    ensures ClientCore.TerminalLast(sent) && sent <= sent + inflight
  {
    assert forall i :: 0 <= i < |sent| ==> (sent + inflight)[i] == sent[i];
  }

  lemma DueSplit(s: EndToEnd.State, n: nat, id: U32)
    requires s.received <= |s.client.events| <= s.received + 1
    requires |s.client.events| > s.received ==> s.client.events[s.received] == Disconnected
    ensures var tail := if |s.client.events| > s.received then [Failure(ConnectionLost)] else [];
            if n <= s.received
            then ClientCore.Due(s.client.events, n, id) == ClientCore.Due(s.client.events[..s.received], n, id) + tail
            else n >= |s.client.events| && ClientCore.Due(s.client.events, n, id) == []
  {
    var events := s.client.events[..s.received];
    if |s.client.events| > s.received {
      assert s.client.events == events + [Disconnected];
    } else {
      assert s.client.events == events;
    }
  }

  /** The `k`-th payload, or the payload of the OK response that ends the stream. */
  predicate Yields(sent: seq<Item>, given: seq<Bytes>, decode: Receiver.Decoder, k: nat, r: Receiver.Received)
    requires r.Ok?
  {
    && k < |sent| && sent[k].Message?
    && if sent[k].frame.header.kind == MESSAGE_TYPE_DATA then k < |given| && r == Ok(given[k])
       else
         && sent[k].frame.header.kind == MESSAGE_TYPE_RESPONSE && k == |sent| - 1 && k <= |given|
         && decode(sent[k].frame.body) == Some(Receiver.Response(true, r.value))
  }

  /** The item is a message that the server enqueued for the stream, or the loss of the connection. */
  ghost predicate FromServer(log: seq<Outbound.Message>, id: U32, item: Item) {
    if item.Message? then exists q :: IsFrom(log, |log|, id, item, q) else item == Failure(ConnectionLost)
  }

  /** The results `rs` of `recv` against the mailbox, the server's queue and the payloads `given` to the stream. */
  ghost predicate Faithful(log: seq<Outbound.Message>, id: U32, sent: seq<Item>, given: seq<Bytes>, decode: Receiver.Decoder,
                           rs: seq<Receiver.Received>, k: nat)
    requires k < |rs|
  {
    && (if k < |sent| then FromServer(log, id, sent[k]) && Receiver.IsResult(true, sent[k], decode, rs[k])
        else rs[k] == Receiver.AfterLast(sent))
    && (rs[k].Ok? ==> Yields(sent, given, decode, k, rs[k]))
    && (rs[k] == Err(Receiver.Eof) ==> rs[..k] == Results(given))
  }

  function Results(given: seq<Bytes>): seq<Receiver.Received> {
    seq(|given|, j requires 0 <= j < |given| => Ok(given[j]))
  }

  /**
   End-to-end delivery. In every run, whatever the interleaving of handlers, writers, readers and
   consumers on any number of streams: call `k` of a stream's `recv`, if it returns a payload,
   returns the `k`-th payload that the stream's handler enqueued, or the payload of the OK response that
   ends the stream; and if it reports the end of the file, all that the handler enqueued has been
   received. What it met is a message that the server enqueued for the stream, or the lost connection,
   and its result is what that item tells.
   */
  lemma RecvIsFaithful(up: EndToEnd.Way, down: EndToEnd.Way, r: EndToEnd.Run, i: nat,
                       c: ClientCore.CallerId, n: nat, decode: Receiver.Decoder, k: nat)
    requires Fits(up) && Fits(down) && EndToEnd.IsRun(up, down, r) && i < |r.states|
    requires ClientCore.Bounded(r.states[i].client) && c < |r.states[i].client.callers| && k < n
    ensures var s := r.states[i];
            var sent, given := s.client.callers[c].box.sent, Delivery.Enqueued(s, ClientCore.IdOf(c));
            var rs := Receiver.Calls(false, true, sent, n, decode);
            Faithful(s.server.log, ClientCore.IdOf(c), sent, given, decode, rs, k)
  {
    var s := r.states[i];
    var sent, id := s.client.callers[c].box.sent, ClientCore.IdOf(c);
    if sent == [] {
      Receiver.NothingAfterLast(true, n, decode);
    } else {
      EndToEnd.SidesHold(up, down, r, i);
      Delivery.InvHolds(up, down, r, i);
      var since, tail := MailboxOfCaller(down, s, c);
      EnqueuedIsStreamData(s, id);
      RecvAgainstLog(s.client.events[..s.received], s.server.log, since, id, tail, sent, n, decode, k);
    }
  }

  /**
   Answers belong to their requests: whatever a caller, be it a request or a stream, finds in its
   mailbox is a message that the server enqueued for the caller's own id, opened to what was given to
   the server's `transform_send`, or the news that the connection is lost.
   */
  lemma ItemsComeFromServer(up: EndToEnd.Way, down: EndToEnd.Way, r: EndToEnd.Run, i: nat, c: ClientCore.CallerId, k: nat)
    requires Fits(up) && Fits(down) && EndToEnd.IsRun(up, down, r) && i < |r.states|
    requires ClientCore.Bounded(r.states[i].client) && c < |r.states[i].client.callers|
    requires k < |r.states[i].client.callers[c].box.sent|
    ensures FromServer(r.states[i].server.log, ClientCore.IdOf(c), r.states[i].client.callers[c].box.sent[k])
  {
    var s := r.states[i];
    EndToEnd.SidesHold(up, down, r, i);
    Delivery.InvHolds(up, down, r, i);
    var since, tail := MailboxOfCaller(down, s, c);
    MailboxIsFromServer(s.client.events[..s.received], s.server.log, since, ClientCore.IdOf(c), tail,
                        s.client.callers[c].box.sent, k);
  }

  /**
   Absorption, end to end: in every run of client and server, once a call of `recv` has returned an
   error, or the payload of a terminal item, every later call returns an error, and end-of-file is not
   reported a second time. Nothing is assumed about what the reader routed.
   */
  lemma RecvAbsorbs(up: EndToEnd.Way, down: EndToEnd.Way, r: EndToEnd.Run, i: nat, c: ClientCore.CallerId,
                    receivable: bool, n: nat, decode: Receiver.Decoder, j: nat, k: nat)
    requires Fits(up) && Fits(down) && EndToEnd.IsRun(up, down, r) && i < |r.states|
    requires ClientCore.Bounded(r.states[i].client) && c < |r.states[i].client.callers| && j < k < n
    ensures var sent := r.states[i].client.callers[c].box.sent;
            var rs := Receiver.Calls(false, receivable, sent, n, decode);
            rs[j].Err? || (j < |sent| && Terminal(sent[j])) ==> rs[k].Err? && rs[k] != Err(Receiver.Eof)
  {
    var s := r.states[i];
    var sent, id := s.client.callers[c].box.sent, ClientCore.IdOf(c);
    if sent != [] {
      EndToEnd.SidesHold(up, down, r, i);
      Delivery.InvHolds(up, down, r, i);
      var since, tail := MailboxOfCaller(down, s, c);
      MailboxIsClean(s.client.events[..s.received], s.server.log, since, id, tail, sent);
    }
    if Receiver.Calls(false, receivable, sent, n, decode)[j].Err? || (j < |sent| && Terminal(sent[j])) {
      Receiver.TerminationAbsorbs(receivable, sent, n, decode, j, k);
    }
  }

  lemma EnqueuedIsStreamData(s: EndToEnd.State, id: U32)
    requires Outbound.EnteredInv(s.server) && Delivery.HandlersInv(s)
    ensures Delivery.Enqueued(s, id) == Delivery.StreamData(s.server.log, id)
  {
    if id in s.handlers {
      assert Delivery.HandlerInv(s, id);
    } else {
      forall k | 0 <= k < |s.server.log|
        ensures !(s.server.log[k].plain.header.streamId == id && EndToEnd.IsOpenData(s.server.log[k].plain.header))
      {
        assert Delivery.JobInv(s, s.server.log[k].id);
      }
      Delivery.NoStreamData(s.server.log, id);
    }
  }

  lemma RecvAgainstLog(events: seq<Event>, log: seq<Outbound.Message>, since: nat, id: U32, tail: seq<Item>, sent: seq<Item>,
                       n: nat, decode: Receiver.Decoder, k: nat)
    requires IsMailboxOf(events, log, since, id, tail, sent) && k < n
    ensures var given, rs := Delivery.StreamData(log, id), Receiver.Calls(false, true, sent, n, decode);
            Faithful(log, id, sent, given, decode, rs, k)
  {
    var rs := Receiver.Calls(false, true, sent, n, decode);
    MailboxIsClean(events, log, since, id, tail, sent);
    MailboxIsPrefix(events, log, since, id, tail, sent);
    Receiver.CallsTellItems(sent, n, decode, k);
    if k < |sent| {
      MailboxIsFromServer(events, log, since, id, tail, sent, k);
    }
    if rs[k].Ok? {
      ReceiveInOrder(sent, n, decode, k);
    } else if rs[k] == Err(Receiver.Eof) {
      EofAfterLast(sent, n, decode, k);
      ClosedMailboxIsComplete(events, log, since, id, tail, sent);
    }
  }
}
