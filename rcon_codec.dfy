/** The RCON frame of modules/minecraft/rconprotocol.py (`_rconpacket`,
    `_rcondecode`): the Source RCON "Basic Packet Structure" of a little-endian
    signed 32-bit size, request id and type, the payload and two NUL bytes. */
module RconCodec {
  import opened Strings
  import Utf8

  type byte = Utf8.byte

  const INT32_MIN: int := -0x8000_0000
  const INT32_MAX: int := 0x7FFF_FFFF

  predicate IsInt32(x: int) { INT32_MIN <= x <= INT32_MAX }

  /** `struct.pack('<i', x)`. */
  function PackInt32(x: int): (b: seq<byte>)
    requires IsInt32(x)
    ensures |b| == 4
  {
    var u := if x < 0 then x + 0x1_0000_0000 else x;
    [u % 256, (u / 256) % 256, (u / 65536) % 256, u / 16777216]
  }

  /** `struct.unpack('<i', b)`. */
  function UnpackInt32(b: seq<byte>): (x: int)
    requires |b| == 4
    ensures IsInt32(x)
  {
    var b0: int := b[0];
    var b1: int := b[1];
    var b2: int := b[2];
    var b3: int := b[3];
    var u := b0 + 256 * b1 + 65536 * b2 + 16777216 * b3;
    if u >= 0x8000_0000 then u - 0x1_0000_0000 else u
  }

  lemma {:induction false} UnpackPack(x: int)
    requires IsInt32(x)
    ensures UnpackInt32(PackInt32(x)) == x
  {
    var u := if x < 0 then x + 0x1_0000_0000 else x;
    var q1 := u / 256;
    var q2 := q1 / 256;
    assert u == q1 * 256 + u % 256;
    assert q1 == q2 * 256 + q1 % 256;
    assert q2 == (q2 / 256) * 256 + q2 % 256;
    assert u / 65536 == q2;
    assert u / 16777216 == q2 / 256;
  }

  /** What `_rcondecode` gives back: a real payload is raw bytes; the default
      packet carries the text 'ERROR' instead. */
  datatype Payload = Raw(bytes: seq<byte>) | ErrorText

  datatype Packet = Packet(id: int, ptype: int, payload: Payload)

  /** The default `{id: -1, type: -1, payload: 'ERROR'}`. */
  const ErrorPacket := Packet(-1, -1, ErrorText)

  /** `_rconpacket(id, type, payload)`: `None` where `struct.pack` raises
      because a field does not fit a signed 32-bit integer. */
  function Encode(id: int, ptype: int, payload: string): (r: Option<seq<byte>>)
    ensures r.Some? ==> |r.value| == 14 + |Utf8.Encode(payload)|
  {
    if !IsInt32(id) || !IsInt32(ptype) then None
    else
      var body := PackInt32(id) + PackInt32(ptype) + Utf8.Encode(payload) + [0, 0];
      if !IsInt32(|body|) then None
      else Some(PackInt32(|body|) + body)
  }

  /** `_rcondecode(raw)`: unpacking fails, and the default packet comes back,
      when the buffer is shorter than the size field, when the size is below
      10 (no room for id, type and padding), or when it differs from the number
      of bytes that follow it. */
  function Decode(raw: seq<byte>): Packet
  {
    if |raw| < 4 then ErrorPacket
    else
      var size := UnpackInt32(raw[..4]);
      if size < 10 || |raw| - 4 != size then ErrorPacket
      else Packet(UnpackInt32(raw[4..8]), UnpackInt32(raw[8..12]), Raw(raw[12..|raw| - 2]))
  }

  /** The frame layout: size, id, type, payload bytes, two NULs, with the size
      counting the ten fixed bytes and the payload. */
  lemma EncodeLayout(id: int, ptype: int, payload: string)
    requires IsInt32(id) && IsInt32(ptype) && IsInt32(10 + |Utf8.Encode(payload)|)
    ensures Encode(id, ptype, payload).Some?
    ensures var b := Encode(id, ptype, payload).value;
      && UnpackInt32(b[..4]) == 10 + |Utf8.Encode(payload)|
      && b[4..8] == PackInt32(id) && b[8..12] == PackInt32(ptype)
      && b[12..|b| - 2] == Utf8.Encode(payload)
      && b[|b| - 2..] == [0, 0]
  {
    var body := PackInt32(id) + PackInt32(ptype) + Utf8.Encode(payload) + [0, 0];
    UnpackPack(|body|);
    var b := Encode(id, ptype, payload).value;
    assert b == PackInt32(|body|) + body;
    assert b[..4] == PackInt32(|body|);
  }

  /** Decoding an encoded frame gives back its id and type, and the payload as
      the UTF-8 bytes of the text. */
  lemma {:induction false} DecodeEncode(id: int, ptype: int, payload: string)
    requires Encode(id, ptype, payload).Some?
    ensures Decode(Encode(id, ptype, payload).value) == Packet(id, ptype, Raw(Utf8.Encode(payload)))
  {
    EncodeLayout(id, ptype, payload);
    UnpackPack(id);
    UnpackPack(ptype);
  }

  /** A frame whose size field disagrees with the bytes that follow decodes to
      the default packet rather than failing. */
  lemma TruncatedFrameIsError(raw: seq<byte>, cut: nat)
    requires Decode(raw) != ErrorPacket
    requires 0 < cut <= |raw|
    ensures Decode(raw[..|raw| - cut]) == ErrorPacket
  {
    var r := raw[..|raw| - cut];
    if |r| >= 4 {
      assert r[..4] == raw[..4];
    }
  }
}
