/**
 The frame format: a ten-byte header (big-endian length and stream id, then the type and flag
 bytes) followed by the body. A `Frame` is a header together with the body that follows it on the
 wire; `WellFormed` says that the header announces exactly that body.
 */
module Wire {

  type Byte = b: int | 0 <= b < 256

  type U32 = n: int | 0 <= n < 0x1_0000_0000

  const MESSAGE_HEADER_LENGTH := 10
  const MESSAGE_LENGTH_MAX := 4194304
  const DEFAULT_PAGE_SIZE := 4096

  const MESSAGE_TYPE_REQUEST: Byte := 1
  const MESSAGE_TYPE_RESPONSE: Byte := 2
  const MESSAGE_TYPE_DATA: Byte := 3

  const FLAG_REMOTE_CLOSED: Byte := 1
  const FLAG_REMOTE_OPEN: Byte := 2
  const FLAG_NO_DATA: Byte := 4

  datatype Header = Header(length: U32, streamId: U32, kind: Byte, flags: Byte)

  datatype Frame = Frame(header: Header, body: seq<Byte>)

  /** `flags & flag == flag` for a single-bit flag. */
  predicate HasFlag(flags: Byte, flag: Byte)
    requires flag > 0
  {
    (flags / flag) % 2 == 1
  }

  predicate Oversized(length: nat) {
    length > MESSAGE_LENGTH_MAX
  }

  function BigEndian(n: U32): (b: seq<Byte>)
    ensures |b| == 4
  {
    [n / 0x100_0000, (n / 0x1_0000) % 256, (n / 256) % 256, n % 256]
  }

  function FromBigEndian(b: seq<Byte>): U32
    requires |b| == 4
  {
    var b0: int, b1: int, b2: int := b[0], b[1], b[2];
    ((b0 * 256 + b1) * 256 + b2) * 256 + b[3]
  }

  lemma BigEndianRoundTrip(n: U32)
    ensures FromBigEndian(BigEndian(n)) == n
  {
    assert n / 0x1_0000 == (n / 256) / 256;
    assert n / 0x100_0000 == ((n / 256) / 256) / 256;
  }

  lemma FromBigEndianRoundTrip(b: seq<Byte>)
    requires |b| == 4
    ensures BigEndian(FromBigEndian(b)) == b
  {
    var n := FromBigEndian(b);
    var b0: int, b1: int, b2: int := b[0], b[1], b[2];
    assert n % 256 == b[3] && n / 256 == (b0 * 256 + b1) * 256 + b2;
    assert (n / 256) % 256 == b2 && (n / 256) / 256 == b0 * 256 + b1;
    assert n / 0x1_0000 == (n / 256) / 256;
    assert n / 0x100_0000 == ((n / 256) / 256) / 256;
  }

  function EncodeHeader(h: Header): (b: seq<Byte>)
    ensures |b| == MESSAGE_HEADER_LENGTH
  {
    BigEndian(h.length) + BigEndian(h.streamId) + [h.kind, h.flags]
  }

  function DecodeHeader(b: seq<Byte>): Header
    requires |b| == MESSAGE_HEADER_LENGTH
  {
    Header(FromBigEndian(b[..4]), FromBigEndian(b[4..8]), b[8], b[9])
  }

  /** Header encoding is a bijection between headers and ten-byte strings. */
  lemma HeaderRoundTrip(h: Header, b: seq<Byte>)
    requires |b| == MESSAGE_HEADER_LENGTH
    ensures DecodeHeader(EncodeHeader(h)) == h
    ensures EncodeHeader(DecodeHeader(b)) == b
  {
    BigEndianRoundTrip(h.length);
    BigEndianRoundTrip(h.streamId);
    assert EncodeHeader(h)[..4] == BigEndian(h.length);
    assert EncodeHeader(h)[4..8] == BigEndian(h.streamId);
    FromBigEndianRoundTrip(b[..4]);
    FromBigEndianRoundTrip(b[4..8]);
    assert b == b[..4] + b[4..8] + [b[8], b[9]];
  }

  function Encode(f: Frame): (b: seq<Byte>)
    ensures |b| == MESSAGE_HEADER_LENGTH + |f.body|
  {
    EncodeHeader(f.header) + f.body
  }

  function EncodeAll(fs: seq<Frame>): seq<Byte> {
    if fs == [] then [] else Encode(fs[0]) + EncodeAll(fs[1..])
  }

  predicate WellFormed(f: Frame) {
    f.header.length == |f.body|
  }

  predicate AllWellFormed(fs: seq<Frame>) {
    forall i :: 0 <= i < |fs| ==> WellFormed(fs[i])
  }

  lemma Associate(a: seq<Byte>, b: seq<Byte>, c: seq<Byte>)
    ensures a + (b + c) == (a + b) + c
  {
  }

  lemma {:induction false} EncodeAllAppend(fs: seq<Frame>, gs: seq<Frame>)
    ensures EncodeAll(fs + gs) == EncodeAll(fs) + EncodeAll(gs)
  {
    if fs == [] {
      assert fs + gs == gs;
    } else {
      EncodeAllAppend(fs[1..], gs);
      assert (fs + gs)[1..] == fs[1..] + gs && (fs + gs)[0] == fs[0];
      Associate(Encode(fs[0]), EncodeAll(fs[1..]), EncodeAll(gs));
    }
  }

  lemma EncodeAllSingleton(f: Frame)
    ensures EncodeAll([f]) == Encode(f)
  {
    assert EncodeAll([f][1..]) == [];
  }
}
