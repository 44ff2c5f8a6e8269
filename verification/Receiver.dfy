/**
 The receiving half of a stream. `Receive` is one call of `recv` given what the mailbox hands out,
 `Calls` a series of calls on a mailbox whose senders are gone once its content is used up. The
 response decoder is a parameter.
 */
module Receiver {
  import opened Wire
  import opened Wrappers
  import opened Pipeline
  import opened Demux

  datatype Response = Response(ok: bool, payload: Bytes)

  type Decoder = Bytes -> Option<Response>

  datatype RecvError =
    | RemoteClosed
    | SenderGone
    | Failed(reason: Reason)
    | BadResponse
    | StatusNotOk
    | NotStreaming
    | CloseWithData
    | Eof
    | PayloadTooLarge
    | Unsupported

  type Received = Result<Bytes, RecvError>

  /** The flag and the result after one call that got `next` from the mailbox (`None`: no sender left). */
  function Receive(remoteClosed: bool, receivable: bool, next: Option<Item>, decode: Decoder): (bool, Received) {
    if remoteClosed then (true, Err(RemoteClosed))
    else match next
      case None => (false, Err(SenderGone))
      case Some(Failure(reason)) => (false, Err(Failed(reason)))
      case Some(Message(f)) =>
        if f.header.kind == MESSAGE_TYPE_RESPONSE then
          match decode(f.body)
          case None => (true, Err(BadResponse))
          case Some(resp) => (true, if resp.ok then Ok(resp.payload) else Err(StatusNotOk))
        else if f.header.kind == MESSAGE_TYPE_DATA then
          if !receivable then (true, Err(NotStreaming))
          else if IsClosing(f.header) && HasFlag(f.header.flags, FLAG_NO_DATA) then
            (true, Err(if f.body != [] then CloseWithData else Eof))
          else
            (IsClosing(f.header), if Oversized(|f.body|) then Err(PayloadTooLarge) else Ok(f.body))
        else (false, Err(Unsupported))
  }

  /** The items a receiver has not taken yet; `closed` once every sender is gone. */
  class Inbox {
    var items: seq<Item>
    var closed: bool

    constructor (items: seq<Item>, closed: bool)
      ensures this.items == items && this.closed == closed
    {
      this.items := items;
      this.closed := closed;
    }

    /** Waits for an item or for the last sender to go; callable when one of the two is the case. */
    method Next() returns (item: Option<Item>)
      requires items != [] || closed
      modifies this`items
      ensures old(items) != [] ==> item == Some(old(items)[0]) && items == old(items)[1..]
      ensures old(items) == [] ==> item == None && items == []
    {
      if items == [] {
        return None;
      }
      item := Some(items[0]);
      items := items[1..];
    }
  }

  class StreamReceiver {
    const recveivable: bool
    var remoteClosed: bool

    constructor (recveivable: bool)
      ensures this.recveivable == recveivable && !remoteClosed
    {
      this.recveivable := recveivable;
      this.remoteClosed := false;
    }

    method Recv(rx: Inbox, decode: Decoder) returns (r: Received)
      requires remoteClosed || rx.items != [] || rx.closed
      modifies this`remoteClosed, rx`items
      ensures var next := if old(rx.items) == [] then None else Some(old(rx.items)[0]);
              (remoteClosed, r) == Receive(old(remoteClosed), recveivable, next, decode)
      ensures rx.items == if old(remoteClosed) || old(rx.items) == [] then old(rx.items) else old(rx.items)[1..]
    {
      if remoteClosed {
        return Err(RemoteClosed);
      }
      var next := rx.Next();
      if next.None? {
        return Err(SenderGone);
      }
      if next.value.Failure? {
        return Err(Failed(next.value.reason));
      }
      var msg := next.value.frame;
      if msg.header.kind == MESSAGE_TYPE_RESPONSE {
        remoteClosed := true;
        var resp := decode(msg.body);
        if resp.None? {
          return Err(BadResponse);
        }
        if !resp.value.ok {
          return Err(StatusNotOk);
        }
        r := Ok(resp.value.payload);
      } else if msg.header.kind == MESSAGE_TYPE_DATA {
        if !recveivable {
          remoteClosed := true;
          return Err(NotStreaming);
        }
        if HasFlag(msg.header.flags, FLAG_REMOTE_CLOSED) {
          remoteClosed := true;
          if HasFlag(msg.header.flags, FLAG_NO_DATA) {
            if msg.body != [] {
              return Err(CloseWithData);
            }
            return Err(Eof);
          }
        }
        if Oversized(|msg.body|) {
          return Err(PayloadTooLarge);
        }
        r := Ok(msg.body);
      } else {
        r := Err(Unsupported);
      }
    }
  }

  // --------------------------------------------------------- a series of calls

  /** The results of `n` completed calls on a mailbox that holds `items` and has no senders left. */
  function Calls(remoteClosed: bool, receivable: bool, items: seq<Item>, n: nat, decode: Decoder): (rs: seq<Received>)
    ensures |rs| == n
    decreases n
  {
    if n == 0 then []
    else
      var next := if items == [] then None else Some(items[0]);
      var (closed, r) := Receive(remoteClosed, receivable, next, decode);
      [r] + Calls(closed, receivable, if remoteClosed || items == [] then items else items[1..], n - 1, decode)
  }

  lemma {:induction false} NothingAfterClose(receivable: bool, items: seq<Item>, n: nat, decode: Decoder)
    ensures forall i :: 0 <= i < n ==> Calls(true, receivable, items, n, decode)[i] == Err(RemoteClosed)
    decreases n
  {
    if n > 0 {
      NothingAfterClose(receivable, items, n - 1, decode);
    }
  }

  lemma {:induction false} NothingAfterLast(receivable: bool, n: nat, decode: Decoder)
    ensures forall i :: 0 <= i < n ==> Calls(false, receivable, [], n, decode)[i] == Err(SenderGone)
    decreases n
  {
    if n > 0 {
      NothingAfterLast(receivable, n - 1, decode);
    }
  }

  /** What a call on a non-terminal item returns: its payload, unless data was not to be expected. */
  lemma ReceiveOngoing(receivable: bool, item: Item, decode: Decoder)
    requires Clean([item]) && !Terminal(item)
    ensures Receive(false, receivable, Some(item), decode)
         == if receivable then (false, Ok(item.frame.body)) else (true, Err(NotStreaming))
  {
    assert [item][0] == item;
  }

  /**
   Absorption: once a call has returned an error, or the payload of a terminal item, every later
   call returns an error, and end-of-file is not reported a second time.
   */
  lemma {:induction false} TerminationAbsorbs(receivable: bool, items: seq<Item>, n: nat, decode: Decoder, i: nat, j: nat)
    requires Clean(items) && i < j < n
    requires var rs := Calls(false, receivable, items, n, decode);
             rs[i].Err? || (i < |items| && Terminal(items[i]))
    ensures var rs := Calls(false, receivable, items, n, decode); rs[j].Err? && rs[j] != Err(Eof)
    decreases n
  {
    if items == [] {
      NothingAfterLast(receivable, n, decode);
    } else if Terminal(items[0]) {
      assert items[1..] == [];
      NothingAfterClose(receivable, [], n - 1, decode);
      NothingAfterLast(receivable, n - 1, decode);
    } else {
      assert Clean([items[0]]);
      ReceiveOngoing(receivable, items[0], decode);
      if receivable {
        CleanTail(items);
        TerminationAbsorbs(receivable, items[1..], n - 1, decode, i - 1, j - 1);
      } else {
        NothingAfterClose(receivable, items[1..], n - 1, decode);
      }
    }
  }

  lemma CleanTail(items: seq<Item>)
    requires Clean(items) && items != []
    ensures Clean(items[1..])
  {
    forall i | 0 <= i < |items[1..]|
      ensures items[1..][i] == items[i + 1]
    {
    }
  }

  /** Before anything ends the stream, each call yields the next message's payload, in order. */
  lemma {:induction false} PayloadsInOrder(items: seq<Item>, n: nat, decode: Decoder, i: nat)
    requires Clean(items) && i < n
    requires Calls(false, true, items, n, decode)[i].Ok?
    ensures i < |items| && items[i].Message?
    ensures items[i].frame.header.kind == MESSAGE_TYPE_DATA ==>
              Calls(false, true, items, n, decode)[i] == Ok(items[i].frame.body)
    ensures forall k :: 0 <= k < i ==> !Terminal(items[k])
    decreases n
  {
    if items == [] {
      NothingAfterLast(true, n, decode);
      assert false;
    } else if i > 0 {
      if Terminal(items[0]) {
        TerminationAbsorbs(true, items, n, decode, 0, i);
        assert false;
      }
      assert Clean([items[0]]);
      ReceiveOngoing(true, items[0], decode);
      CleanTail(items);
      PayloadsInOrder(items[1..], n - 1, decode, i - 1);
    }
  }

  /** End-of-file means that every item before it was a message and has been received. */
  lemma {:induction false} EofMeansAll(items: seq<Item>, n: nat, decode: Decoder, i: nat)
    requires Clean(items) && i < n
    requires Calls(false, true, items, n, decode)[i] == Err(Eof)
    ensures i == |items| - 1 && items[i].Message? && IsClosing(items[i].frame.header)
    ensures forall k :: 0 <= k < i ==>
              !Terminal(items[k]) && Calls(false, true, items, n, decode)[k] == Ok(items[k].frame.body)
    decreases n
  {
    if items == [] {
      NothingAfterLast(true, n, decode);
      assert false;
    } else if Terminal(items[0]) {
      if i > 0 {
        assert Calls(false, true, items, n, decode)[0].Err? || Terminal(items[0]);
        TerminationAbsorbs(true, items, n, decode, 0, i);
        assert false;
      }
    } else {
      assert Clean([items[0]]);
      ReceiveOngoing(true, items[0], decode);
      CleanTail(items);
      EofMeansAll(items[1..], n - 1, decode, i - 1);
    }
  }

  // ---------------------------------------------- each result, read off the mailbox

  /** The result `r` of a call that meets a response. */
  predicate IsResponseResult(body: Bytes, decode: Decoder, r: Received) {
    match decode(body)
    case None => r == Err(BadResponse)
    case Some(resp) => if resp.ok then r == Ok(resp.payload) else r == Err(StatusNotOk)
  }

  /** The result of a call that meets data on a stream that expects them; bits 0 and 2 are the closing flags. */
  predicate IsDataResult(f: Frame, r: Received) {
    if f.header.flags % 2 == 1 && (f.header.flags / 4) % 2 == 1
    then r == Err(if f.body == [] then Eof else CloseWithData)
    else r == Ok(f.body)
  }

  /** The result of a call that meets the item. */
  predicate IsResult(receivable: bool, item: Item, decode: Decoder, r: Received) {
    match item
    case Failure(reason) => r == Err(Failed(reason))
    case Message(f) =>
      if f.header.kind == MESSAGE_TYPE_RESPONSE then IsResponseResult(f.body, decode, r)
      else if receivable then IsDataResult(f, r)
      else r == Err(NotStreaming)
  }

  /** The result of a call after the last item. */
  function AfterLast(items: seq<Item>): Received {
    if items != [] && items[|items| - 1].Message? && !GoesOnAfter(items[|items| - 1]) then Err(RemoteClosed)
    else Err(SenderGone)
  }

  /** Data, with the lowest flag bit clear. */
  predicate GoesOnAfter(item: Item) {
    item.Message? && GoesOn(item.frame.header)
  }

  lemma {:induction false} AllClosed(receivable: bool, items: seq<Item>, n: nat, decode: Decoder, k: nat)
    requires k < n
    ensures Calls(true, receivable, items, n, decode)[k] == Err(RemoteClosed)
  {
    NothingAfterClose(receivable, items, n, decode);
  }

  lemma FirstResult(receivable: bool, items: seq<Item>, decode: Decoder)
    requires Clean(items) && items != []
    ensures var (closed, r) := Receive(false, receivable, Some(items[0]), decode);
            && IsResult(receivable, items[0], decode, r)
            && (closed <==> items[0].Message? && !(receivable && GoesOnAfter(items[0])))
  {
  }

  /**
   Every result of `recv`: on a stream that expects data, call `k` tells exactly what item `k` is. A
   response yields its payload exactly if it decodes and its status is OK, and its own error otherwise;
   data yield their payload unless they close the stream without any. After the last item each call
   reports that the remote side is closed, if a message closed it, or else that no sender is left.
   */
  lemma {:induction false} CallsTellItems(items: seq<Item>, n: nat, decode: Decoder, k: nat)
    requires Clean(items) && k < n
    ensures var r := Calls(false, true, items, n, decode)[k];
            if k < |items| then IsResult(true, items[k], decode, r) else r == AfterLast(items)
    decreases n
  {
    if items == [] {
      NothingAfterLast(true, n, decode);
    } else {
      FirstResult(true, items, decode);
      CleanTail(items);
      if k > 0 {
        if items[0].Message? && !GoesOnAfter(items[0]) {
          assert Terminal(items[0]) && items[1..] == [];
          AllClosed(true, items[1..], n - 1, decode, k - 1);
        } else {
          CallsTellItems(items[1..], n - 1, decode, k - 1);
          assert items[0].Failure? ==> items[1..] == [];
        }
      }
    }
  }

  /** On a stream that expects a response only, the first item is told and nothing after it. */
  lemma CallsTellFirst(items: seq<Item>, n: nat, decode: Decoder, k: nat)
    requires Clean(items) && k < n
    ensures var r := Calls(false, false, items, n, decode)[k];
            if items == [] then r == Err(SenderGone)
            else if k == 0 then IsResult(false, items[0], decode, r)
            else r == Err(if items[0].Message? then RemoteClosed else SenderGone)
  {
    if items == [] {
      NothingAfterLast(false, n, decode);
    } else {
      FirstResult(false, items, decode);
      if k > 0 {
        if items[0].Message? {
          AllClosed(false, items[1..], n - 1, decode, k - 1);
        } else {
          assert Terminal(items[0]) && items[1..] == [];
          NothingAfterLast(false, n - 1, decode);
        }
      }
    }
  }

  /** Data with the lowest flag bit set close the stream for good, whether they carry a payload or not. */
  lemma ClosingBitCloses(items: seq<Item>, n: nat, decode: Decoder, k: nat, j: nat)
    requires Clean(items) && k < |items| && k < j < n
    requires items[k].Message? && items[k].frame.header.flags % 2 == 1
    requires items[k].frame.header.kind == MESSAGE_TYPE_DATA
    ensures k == |items| - 1 && Calls(false, true, items, n, decode)[j] == Err(RemoteClosed)
  {
    assert Terminal(items[k]);
    CallsTellItems(items, n, decode, j);
  }
}
