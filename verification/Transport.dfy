/**
 The byte stream under a connection. Reads and writes may be short; which length a call gets is
 left open, so whatever is proved holds for every schedule. A stream ends in end-of-file or in an
 I/O error; an error in mid-stream is a shorter `incoming` with the ending `Broken`. `refusals` counts
 how often the transport failed to take anything: a write or a flush that failed, or a write of zero.
 */
module Transport {
  import opened Wire
  import opened Wrappers

  datatype Ending = Eof | Broken

  datatype IoError = IoError

  class Conn {
    var incoming: seq<Byte>  // what the peer sent and nobody has read yet
    const ending: Ending
    var outgoing: seq<Byte>  // what the transport has accepted from this side
    ghost var refusals: nat

    constructor (incoming: seq<Byte>, ending: Ending)
      ensures this.incoming == incoming && this.ending == ending && outgoing == [] && refusals == 0
    {
      this.incoming := incoming;
      this.ending := ending;
      outgoing := [];
      refusals := 0;
    }

    method Read(buf: array<Byte>, from: nat) returns (r: Result<nat, IoError>)
      requires from < buf.Length
      modifies this`incoming, buf
      ensures old(incoming) == [] ==>
                && r == (if ending == Eof then Ok(0) else Err(IoError))
                && incoming == [] && buf[..] == old(buf[..])
      ensures old(incoming) != [] ==>
                && r.Ok? && 1 <= r.value <= |old(incoming)| && from + r.value <= buf.Length
                && buf[..] == old(buf[..from]) + old(incoming)[..r.value] + old(buf[from + r.value..])
                && incoming == old(incoming)[r.value..]
    {
      if incoming == [] {
        return if ending == Eof then Ok(0) else Err(IoError);
      }
      var l: nat :| 1 <= l <= |incoming| && from + l <= buf.Length;
      forall i | 0 <= i < l {
        buf[from + i] := incoming[i];
      }
      incoming := incoming[l..];
      r := Ok(l);
    }

    method Write(bytes: seq<Byte>) returns (r: Result<nat, IoError>)
      modifies this`outgoing, this`refusals
      ensures r.Ok? ==> r.value <= |bytes| && outgoing == old(outgoing) + bytes[..r.value]
      ensures r.Err? ==> outgoing == old(outgoing)
      ensures refusals == old(refusals) + if r.Err? || (r.value == 0 && bytes != []) then 1 else 0
    {
      var fails: bool := *;
      if fails {
        refusals := refusals + 1;
        return Err(IoError);
      }
      var l: nat :| l <= |bytes|;
      if l == 0 && bytes != [] {
        refusals := refusals + 1;
      }
      outgoing := outgoing + bytes[..l];
      r := Ok(l);
    }

    /** Keeps writing until all of `bytes` is out, and fails only when a write takes nothing. */
    method WriteAll(bytes: seq<Byte>) returns (r: Result<(), IoError>)
      modifies this`outgoing, this`refusals
      ensures old(outgoing) <= outgoing <= old(outgoing) + bytes
      ensures r.Ok? <==> outgoing == old(outgoing) + bytes
      ensures refusals == old(refusals) + if r.Err? then 1 else 0
    {
      var remaining := bytes;
      ghost var done := outgoing;
      while remaining != []
        invariant refusals == old(refusals)
        invariant outgoing + remaining == done + bytes
        invariant done <= outgoing
        decreases |remaining|
      {
        var written := Write(remaining);
        if written.Err? || written.value == 0 {
          assert |outgoing| < |done + bytes|;
          return Err(IoError);
        }
        remaining := remaining[written.value..];
      }
      r := Ok(());
    }

    /** Fills `buf`; a stream that ends first is an error, whatever it ends in. */
    method ReadExact(buf: array<Byte>) returns (r: Result<(), IoError>)
      modifies this`incoming, buf
      ensures buf.Length <= |old(incoming)| ==>
                r.Ok? && buf[..] == old(incoming)[..buf.Length] && incoming == old(incoming)[buf.Length..]
      ensures |old(incoming)| < buf.Length ==> r.Err? && incoming == []
    {
      var len := 0;
      ghost var before := incoming;
      while len < buf.Length
        invariant 0 <= len <= buf.Length && len <= |before|
        invariant incoming == before[len..] && buf[..len] == before[..len]
      {
        var n := Read(buf, len);
        if n.Err? || n.value == 0 {
          return Err(IoError);
        }
        assert buf[..len + n.value] == before[..len + n.value];
        len := len + n.value;
      }
      assert buf[..] == buf[..len];
      r := Ok(());
    }

    method Flush() returns (r: Result<(), IoError>)
      modifies this`refusals
      ensures refusals == old(refusals) + if r.Err? then 1 else 0
    {
      var fails: bool := *;
      if fails {
        refusals := refusals + 1;
      }
      r := if fails then Err(IoError) else Ok(());
    }
  }
}
