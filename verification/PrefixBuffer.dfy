/**
 The growable byte buffer that a writer keeps from frame to frame, and the step both writers share:
 laying out the header and the first page of the body in it.
 */
module PrefixBuffer {
  import opened Wire

  class ByteVec {
    var data: seq<Byte>
    var capacity: nat

    ghost predicate Valid()
      reads this
    {
      |data| <= capacity
    }

    constructor ()
      ensures Valid() && data == [] && capacity == 0
    {
      data := [];
      capacity := 0;
    }

    method ReserveExact(additional: nat)
      requires Valid()
      modifies this`capacity
      ensures Valid() && |data| + additional <= capacity
      ensures |data| + additional <= old(capacity) ==> capacity == old(capacity)
    {
      if capacity < |data| + additional {
        var more: nat :| |data| + additional <= more;
        capacity := more;
      }
    }

    method Resize(len: nat)
      requires Valid()
      modifies this
      ensures Valid() && |data| == len
      ensures len <= old(capacity) ==> capacity == old(capacity)
      ensures forall i :: 0 <= i < len && i < |old(data)| ==> data[i] == old(data)[i]
    {
      if capacity < len {
        var more: nat :| len <= more;
        capacity := more;
      }
      data := if len <= |data| then data[..len] else data + seq(len - |data|, _ => 0);
    }

    /** `MessageHeader::into_buf` on this buffer. */
    method StoreHeader(h: Header)
      requires Valid() && MESSAGE_HEADER_LENGTH <= |data|
      modifies this`data
      ensures Valid() && data == EncodeHeader(h) + old(data)[MESSAGE_HEADER_LENGTH..]
    {
      data := BigEndian(h.length) + data[4..];
      data := data[..4] + BigEndian(h.streamId) + data[8..];
      data := data[..8] + [h.kind] + data[9..];
      data := data[..9] + [h.flags] + data[10..];
    }

    /**
     Lays out `header` and as much of `body` as fits in one page, whatever an earlier frame left
     behind. The buffer ends at most one page long, and a capacity of a page is never regrown.
     */
    method Fill(header: Header, body: seq<Byte>) returns (taken: nat)
      requires Valid()
      modifies this
      ensures Valid() && taken <= |body| && |data| <= DEFAULT_PAGE_SIZE
      ensures data == EncodeHeader(header) + body[..taken]
      ensures taken < |body| ==> |data| == DEFAULT_PAGE_SIZE
      ensures DEFAULT_PAGE_SIZE <= old(capacity) ==> capacity == old(capacity)
    {
      taken := if |body| < DEFAULT_PAGE_SIZE - MESSAGE_HEADER_LENGTH then |body|
               else DEFAULT_PAGE_SIZE - MESSAGE_HEADER_LENGTH;
      var len := MESSAGE_HEADER_LENGTH + taken;
      if capacity < len {
        var additional: nat := len - |data|;
        ReserveExact(additional);
      }
      Resize(len);
      StoreHeader(header);
      data := data[..MESSAGE_HEADER_LENGTH] + body[..taken];
    }
  }
}
