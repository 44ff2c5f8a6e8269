/**
 The per-connection payload transform and the pipelines around it. A transform is a pair of counter
 machines: what sealing and opening do depends on how many payloads went through before, and an
 error leaves the count where it is. `Honest` is what such a transform promises.

 `SealFrame` and `OpenFrame` are the reference definitions of the outbound and the inbound pipeline.
 */
module Pipeline {
  import opened Wire
  import opened Wrappers

  type Bytes = seq<Byte>

  datatype Transform = Transform(
    seal: (nat, Bytes, Bytes) -> Option<Bytes>,    // counter, associated data, payload
    unseal: (nat, Bytes, Bytes) -> Option<Bytes>,
    maxOverhead: nat)

  /** Unsealing inverts sealing at the same counter and associated data, and the expansion is bounded. */
  ghost predicate Honest(x: Transform) {
    forall n, aad, plain {:trigger x.seal(n, aad, plain)} :: x.seal(n, aad, plain).Some? ==>
      && |x.seal(n, aad, plain).value| <= |plain| + x.maxOverhead
      && x.unseal(n, aad, x.seal(n, aad, plain).value) == Some(plain)
  }

  datatype Error = Others | RpcStatus

  function CheckOversize(len: nat, rpcError: bool): Result<(), Error> {
    if Oversized(len) then Err(if rpcError then RpcStatus else Others) else Ok(())
  }

  /** The immutable part of a header: everything but the length. */
  function SerializeAad(h: Header): Bytes {
    BigEndian(h.streamId) + [h.kind, h.flags]
  }

  lemma AadDeterminesRouting(h: Header, g: Header)
    ensures SerializeAad(h) == SerializeAad(g) <==> h.(length := 0) == g.(length := 0)
  {
    BigEndianRoundTrip(h.streamId);
    BigEndianRoundTrip(g.streamId);
    assert SerializeAad(h)[..4] == BigEndian(h.streamId) && SerializeAad(g)[..4] == BigEndian(g.streamId);
    assert SerializeAad(h)[4..] == [h.kind, h.flags] && SerializeAad(g)[4..] == [g.kind, g.flags];
    assert [h.kind, h.flags][0] == h.kind && [h.kind, h.flags][1] == h.flags;
    assert [g.kind, g.flags][0] == g.kind && [g.kind, g.flags][1] == g.flags;
  }

  function MaxRawPayloadLen(transform: Option<Transform>): nat {
    match transform
    case None => MESSAGE_LENGTH_MAX
    case Some(x) => if x.maxOverhead <= MESSAGE_LENGTH_MAX then MESSAGE_LENGTH_MAX - x.maxOverhead else 0
  }

  function Truncate(len: nat): U32 {
    len % 0x1_0000_0000
  }

  /** The outbound pipeline at counter `n`: what goes to the queue, and the counter afterwards. */
  function SealFrame(transform: Option<Transform>, n: nat, f: Frame, rpcError: bool): (Result<Frame, Error>, nat) {
    match transform
    case None =>
      (match CheckOversize(|f.body|, rpcError) case Ok(_) => Ok(f) case Err(e) => Err(e), n)
    case Some(x) =>
      if |f.body| > MaxRawPayloadLen(transform) then (Err(Others), n)
      else match x.seal(n, SerializeAad(f.header), f.body)
        case None => (Err(Others), n)
        case Some(body) =>
          var sealed := Frame(f.header.(length := Truncate(|body|)), body);
          (match CheckOversize(|body|, rpcError) case Ok(_) => Ok(sealed) case Err(e) => Err(e), n + 1)
  }

  /** The inbound pipeline at counter `n`. */
  function OpenFrame(transform: Option<Transform>, n: nat, f: Frame, rpcError: bool): (Result<Frame, Error>, nat) {
    match transform
    case None =>
      (match CheckOversize(|f.body|, rpcError) case Ok(_) => Ok(f) case Err(e) => Err(e), n)
    case Some(x) =>
      match x.unseal(n, SerializeAad(f.header), f.body)
      case None => (Err(Others), n)
      case Some(body) =>
        var clear := Frame(f.header.(length := Truncate(|body|)), body);
        (match CheckOversize(|body|, rpcError) case Ok(_) => Ok(clear) case Err(e) => Err(e), n + 1)
  }

  /** What the body of an inbound frame opens to at counter `n`, in the transform's own terms. */
  predicate OpensTo(transform: Option<Transform>, n: nat, f: Frame, body: Bytes) {
    && !Oversized(|body|)
    && match transform
       case None => body == f.body
       case Some(x) => x.unseal(n, SerializeAad(f.header), f.body) == Some(body)
  }

  predicate Opens(transform: Option<Transform>, n: nat, f: Frame) {
    match transform
    case None => !Oversized(|f.body|)
    case Some(x) =>
      var clear := x.unseal(n, SerializeAad(f.header), f.body);
      clear.Some? && !Oversized(|clear.value|)
  }

  /** The transform refuses the frame: it was not sealed by the peer at this counter for this header. */
  predicate RefusedByTransform(transform: Option<Transform>, n: nat, f: Frame) {
    transform.Some? && transform.value.unseal(n, SerializeAad(f.header), f.body).None?
  }

  /**
   The inbound pipeline accepts exactly what opens, and passes on what it opens to; a frame that the
   transform refuses is an error and leaves the counter alone, any other moves it by one.
   */
  lemma OpensExactly(transform: Option<Transform>, n: nat, f: Frame, rpcError: bool, body: Bytes)
    requires f.header.length == Truncate(|f.body|)
    ensures var (r, next) := OpenFrame(transform, n, f, rpcError);
            && (OpensTo(transform, n, f, body) <==> r == Ok(Frame(f.header.(length := Truncate(|body|)), body)))
            && (r.Ok? <==> Opens(transform, n, f))
            && (r.Ok? ==> OpensTo(transform, n, f, r.value.body))
            && (RefusedByTransform(transform, n, f) ==> r == Err(Others) && next == n)
            && (!RefusedByTransform(transform, n, f) ==>
                  && next == (if transform.Some? then n + 1 else n)
                  && (r.Err? ==> r == Err(if rpcError then RpcStatus else Others)))
  {
  }

  /** What an outbound payload may be sealed to at counter `n`, in the transform's own terms. */
  predicate SealsTo(transform: Option<Transform>, n: nat, f: Frame, body: Bytes) {
    && !Oversized(|body|)
    && match transform
       case None => body == f.body
       case Some(x) =>
         && |f.body| + x.maxOverhead <= MESSAGE_LENGTH_MAX
         && x.seal(n, SerializeAad(f.header), f.body) == Some(body)
  }

  /**
   The outbound pipeline sends exactly the payloads that leave room for the transform's overhead and
   that it seals, and sends what they are sealed to; with a sound transform the rest costs no counter.
   */
  lemma SealsExactly(transform: Option<Transform>, n: nat, f: Frame, rpcError: bool, body: Bytes)
    requires Fits(transform) && f.header.length == Truncate(|f.body|)
    ensures var (r, next) := SealFrame(transform, n, f, rpcError);
            && (SealsTo(transform, n, f, body) <==> r == Ok(Frame(f.header.(length := Truncate(|body|)), body)))
            && (r.Ok? ==> SealsTo(transform, n, f, r.value.body))
            && next == (if r.Ok? && transform.Some? then n + 1 else n)
            && (r.Err? ==> r == Err(if rpcError && transform.None? then RpcStatus else Others))
  {
  }

  /** A transform whose pre-check is sound: the declared overhead fits into a frame. */
  ghost predicate Fits(transform: Option<Transform>) {
    transform.Some? ==> Honest(transform.value) && transform.value.maxOverhead <= MESSAGE_LENGTH_MAX
  }

  /**
   An outbound error never moves the counter, so a payload that is refused costs no position; and
   what is accepted fits into a frame, declares its length, and opens at the same counter.
   */
  lemma SealThenOpen(transform: Option<Transform>, n: nat, f: Frame, rpcError: bool)
    requires Fits(transform) && f.header.length == Truncate(|f.body|)
    ensures var (r, next) := SealFrame(transform, n, f, rpcError);
            && (r.Err? ==> next == n)
            && (r.Ok? ==>
                  && next == (if transform.Some? then n + 1 else n)
                  && WellFormed(r.value) && !Oversized(|r.value.body|)
                  && r.value.header.(length := 0) == f.header.(length := 0)
                  && OpenFrame(transform, n, r.value, rpcError) == (Ok(f), next))
  {
    if transform.Some? && |f.body| <= MaxRawPayloadLen(transform) {
      var sealed := transform.value.seal(n, SerializeAad(f.header), f.body);
      if sealed.Some? {
        AadDeterminesRouting(f.header, f.header.(length := Truncate(|sealed.value|)));
      }
    }
  }

  /**
   The bound on the overhead is needed: with any larger one the pre-check admits the empty payload,
   the seal may fill more than a frame, and the refusal comes after the counter has moved.
   */
  lemma LargeOverheadLosesStep(maxOverhead: nat, h: Header) returns (x: Transform)
    requires maxOverhead > MESSAGE_LENGTH_MAX
    ensures Honest(x) && x.maxOverhead == maxOverhead
    ensures SealFrame(Some(x), 0, Frame(h, []), false) == (Err(Others), 1)
  {
    var pad: Bytes := seq(maxOverhead, _ => 0);
    x := Transform(
      (n: nat, aad: Bytes, plain: Bytes) => Some(plain + pad),
      (n: nat, aad: Bytes, sealed: Bytes) => if |sealed| < |pad| then None else Some(sealed[..|sealed| - |pad|]),
      maxOverhead);
    forall n: nat, aad: Bytes, plain: Bytes
      ensures x.unseal(n, aad, x.seal(n, aad, plain).value) == Some(plain)
    {
      assert (plain + pad)[..|plain|] == plain;
    }
  }

  // ------------------------------------------------------------ in-place form

  class GenMessage {
    var header: Header
    var payload: Bytes

    constructor (header: Header, payload: Bytes)
      ensures this.header == header && this.payload == payload
    {
      this.header := header;
      this.payload := payload;
    }
  }

  /** Both pipelines rewrite the message they are given; each direction has its own counter. */
  class ConnectionContext {
    const payloadTransform: Option<Transform>
    var sealed: nat
    var unsealed: nat

    constructor (payloadTransform: Option<Transform>)
      ensures this.payloadTransform == payloadTransform && sealed == 0 && unsealed == 0
    {
      this.payloadTransform := payloadTransform;
      this.sealed := 0;
      this.unsealed := 0;
    }

    method Outbound(msg: GenMessage, rpcError: bool) returns (r: Result<(), Error>)
      modifies msg, this`sealed
      ensures var (sent, next) := SealFrame(payloadTransform, old(sealed), old(Frame(msg.header, msg.payload)), rpcError);
              && sealed == next
              && r == (match sent case Ok(_) => Ok(()) case Err(e) => Err(e))
              && (sent.Ok? ==> Frame(msg.header, msg.payload) == sent.value)
      ensures Fits(payloadTransform) ==>
                forall body :: SealsTo(payloadTransform, old(sealed), old(Frame(msg.header, msg.payload)), body) <==>
                  r.Ok? && msg.payload == body
    {
      if payloadTransform.Some? {
        var maxLen := MaxRawPayloadLen(payloadTransform);
        if |msg.payload| > maxLen {
          return Err(Others);
        }
        var aad := SerializeAad(msg.header);
        var taken := msg.payload;
        msg.payload := [];
        var body := payloadTransform.value.seal(sealed, aad, taken);
        if body.None? {
          return Err(Others);
        }
        sealed := sealed + 1;
        msg.payload := body.value;
        msg.header := msg.header.(length := Truncate(|msg.payload|));
      }
      r := CheckOversize(|msg.payload|, rpcError);
    }

    method Inbound(msg: GenMessage, rpcError: bool) returns (r: Result<(), Error>)
      modifies msg, this`unsealed
      ensures var (got, next) := OpenFrame(payloadTransform, old(unsealed), old(Frame(msg.header, msg.payload)), rpcError);
              && unsealed == next
              && r == (match got case Ok(_) => Ok(()) case Err(e) => Err(e))
              && (got.Ok? ==> Frame(msg.header, msg.payload) == got.value)
      ensures forall body :: OpensTo(payloadTransform, old(unsealed), old(Frame(msg.header, msg.payload)), body) <==>
                r.Ok? && msg.payload == body
      ensures RefusedByTransform(payloadTransform, old(unsealed), old(Frame(msg.header, msg.payload))) ==>
                r.Err? && unsealed == old(unsealed)
    {
      if payloadTransform.Some? {
        var aad := SerializeAad(msg.header);
        var taken := msg.payload;
        msg.payload := [];
        var body := payloadTransform.value.unseal(unsealed, aad, taken);
        if body.None? {
          return Err(Others);
        }
        unsealed := unsealed + 1;
        msg.payload := body.value;
        msg.header := msg.header.(length := Truncate(|msg.payload|));
      }
      r := CheckOversize(|msg.payload|, rpcError);
    }

    /**
     `send_response_sync`: transform and enqueue under one lock, so queue order is counter order.
     The enqueue fails once the response thread is gone; the counter has moved by then.
     */
    method SendResponseSync(buf: Bytes, mh: Header, queue: seq<Frame>, open: bool) returns (r: Result<seq<Frame>, Error>)
      modifies this`sealed
      ensures var (sent, next) := SealFrame(payloadTransform, old(sealed), Frame(mh.(length := Truncate(|buf|)), buf), true);
              && sealed == next
              && r == (match sent case Ok(f) => if open then Ok(queue + [f]) else Err(Others) case Err(e) => Err(e))
      ensures Fits(payloadTransform) ==>
                forall body :: SealsTo(payloadTransform, old(sealed), Frame(mh.(length := Truncate(|buf|)), buf), body) ==>
                  r == if open then Ok(queue + [Frame(mh.(length := Truncate(|body|)), body)]) else Err(Others)
      ensures Fits(payloadTransform) && r.Ok? ==>
                && open && |r.value| == |queue| + 1
                && SealsTo(payloadTransform, old(sealed), Frame(mh.(length := Truncate(|buf|)), buf), r.value[|queue|].body)
    {
      var body := buf;
      if payloadTransform.Some? {
        if |buf| > MaxRawPayloadLen(payloadTransform) {
          return Err(Others);
        }
        var out := payloadTransform.value.seal(sealed, SerializeAad(mh), buf);
        if out.None? {
          return Err(Others);
        }
        sealed := sealed + 1;
        body := out.value;
      }
      var checked := CheckOversize(|body|, true);
      if checked.Err? {
        return Err(checked.error);
      }
      if !open {
        return Err(Others);
      }
      r := Ok(queue + [Frame(mh.(length := Truncate(|body|)), body)]);
    }
  }

  // --------------------------------------------------------------- sequences

  /** Opening a sequence of frames from counter `n` on; `None` if one of them does not open. */
  function OpenAll(transform: Option<Transform>, n: nat, fs: seq<Frame>): Option<seq<Frame>>
    decreases fs
  {
    if fs == [] then Some([])
    else match OpenFrame(transform, n, fs[0], false)
      case (Err(_), _) => None
      case (Ok(f), next) =>
        match OpenAll(transform, next, fs[1..])
        case None => None
        case Some(rest) => Some([f] + rest)
  }

  /** Frame `k` of `sealed` is `plain[k]` sealed at counter `n + k`. */
  ghost predicate SealedInOrder(transform: Option<Transform>, n: nat, plain: seq<Frame>, sealed: seq<Frame>) {
    && |plain| == |sealed|
    && forall k :: 0 <= k < |plain| ==>
         && plain[k].header.length == Truncate(|plain[k].body|)
         && SealFrame(transform, if transform.Some? then n + k else n, plain[k], false).0 == Ok(sealed[k])
  }

  /** Frames sealed at consecutive counters open at the same counters, in order, to what was sealed. */
  lemma {:induction false} OpenInOrder(transform: Option<Transform>, n: nat, plain: seq<Frame>, sealed: seq<Frame>)
    requires Fits(transform) && SealedInOrder(transform, n, plain, sealed)
    ensures OpenAll(transform, n, sealed) == Some(plain)
    decreases plain
  {
    if plain == [] {
    } else {
      SealThenOpen(transform, n, plain[0], false);
      var next := if transform.Some? then n + 1 else n;
      assert SealFrame(transform, n, plain[0], false) == (Ok(sealed[0]), next);
      forall k | 0 <= k < |plain| - 1
        ensures SealFrame(transform, if transform.Some? then next + k else next, plain[1..][k], false).0 == Ok(sealed[1..][k])
      {
        assert plain[1..][k] == plain[k + 1] && sealed[1..][k] == sealed[k + 1];
      }
      OpenInOrder(transform, next, plain[1..], sealed[1..]);
      assert plain == [plain[0]] + plain[1..];
    }
  }
}
