/**
 * The Confluent Schema Registry wire frame both Avro publishers put around
 * an encoded event: a zero magic byte, the schema id as a big-endian
 * unsigned 32-bit integer, then the payload.
 */
module WireFormat {
  import opened Wrappers

  newtype byte = x: int | 0 <= x < 256

  const MagicByte: byte := 0
  const Two32: int := 0x1_0000_0000

  /** Go's `uint32(id)` on an `int`: the value modulo 2^32. */
  function Uint32(id: int): (v: nat)
    ensures v < Two32
    ensures 0 <= id < Two32 ==> v == id
    ensures (v - id) % Two32 == 0
  {
    id % Two32
  }

  /** `binary.BigEndian.PutUint32`'s four bytes, most significant first. */
  function BigEndian32(v: nat): (b: seq<byte>)
    requires v < Two32
    ensures |b| == 4
  {
    var v1 := v / 0x100;
    var v2 := v1 / 0x100;
    [(v2 / 0x100) as byte, (v2 % 0x100) as byte, (v1 % 0x100) as byte, (v % 0x100) as byte]
  }

  /** `binary.BigEndian.Uint32`. */
  function ReadBigEndian32(b: seq<byte>): (v: nat)
    requires |b| == 4
    ensures v < Two32
  {
    ((b[0] as int * 0x100 + b[1] as int) * 0x100 + b[2] as int) * 0x100 + b[3] as int
  }

  lemma ReadOfBigEndian32(v: nat)
    requires v < Two32
    ensures ReadBigEndian32(BigEndian32(v)) == v
  {
    var v1 := v / 0x100;
    var v2 := v1 / 0x100;
    assert v == v1 * 0x100 + v % 0x100;
    assert v1 == v2 * 0x100 + v1 % 0x100;
    assert v2 == (v2 / 0x100) * 0x100 + v2 % 0x100;
  }

  lemma BigEndian32OfRead(b: seq<byte>)
    requires |b| == 4
    ensures BigEndian32(ReadBigEndian32(b)) == b
  {
    var v2 := b[0] as int * 0x100 + b[1] as int;
    var v1 := v2 * 0x100 + b[2] as int;
    var v := v1 * 0x100 + b[3] as int;
    assert v / 0x100 == v1 && v % 0x100 == b[3] as int by { DivOfSum(v1, b[3] as int); }
    assert v1 / 0x100 == v2 && v1 % 0x100 == b[2] as int by { DivOfSum(v2, b[2] as int); }
    assert v2 / 0x100 == b[0] as int && v2 % 0x100 == b[1] as int by { DivOfSum(b[0] as int, b[1] as int); }
  }

  lemma DivOfSum(q: nat, r: nat)
    requires r < 0x100
    ensures (q * 0x100 + r) / 0x100 == q
    ensures (q * 0x100 + r) % 0x100 == r
  {
  }

  /** The frame of a payload encoded under schema `schemaID`. */
  function Frame(schemaID: int, payload: seq<byte>): (w: seq<byte>)
    ensures |w| == 5 + |payload|
    ensures w[0] == MagicByte
    ensures w[5..] == payload
  {
    [MagicByte] + BigEndian32(Uint32(schemaID)) + payload
  }

  /** A consumer's reading of a frame: the schema id and the payload, if the frame is well formed. */
  function Decode(wire: seq<byte>): (r: Option<(nat, seq<byte>)>)
    ensures r.Some? <==> |wire| >= 5 && wire[0] == MagicByte
  {
    if |wire| < 5 || wire[0] != MagicByte then None
    else Some((ReadBigEndian32(wire[1..5]), wire[5..]))
  }

  /** Decoding a frame gives back the schema id modulo 2^32 and the payload. */
  lemma DecodeOfFrame(schemaID: int, payload: seq<byte>)
    ensures Decode(Frame(schemaID, payload)) == Some((Uint32(schemaID), payload))
  {
    var w := Frame(schemaID, payload);
    assert w[1..5] == BigEndian32(Uint32(schemaID));
    ReadOfBigEndian32(Uint32(schemaID));
  }

  /** Every well-formed frame is the frame of what it decodes to. */
  lemma FrameOfDecode(wire: seq<byte>)
    requires Decode(wire).Some?
    ensures Frame(Decode(wire).value.0, Decode(wire).value.1) == wire
  {
    BigEndian32OfRead(wire[1..5]);
    assert wire == [wire[0]] + wire[1..5] + wire[5..];
  }

  /** `binary.BigEndian.PutUint32(b[off:], v)`. */
  method PutUint32(b: array<byte>, off: nat, v: nat)
    requires off + 4 <= b.Length && v < Two32
    modifies b
    ensures b[..] == old(b[..off]) + BigEndian32(v) + old(b[off + 4..])
  {
    var be := BigEndian32(v);
    b[off] := be[0];
    b[off + 1] := be[1];
    b[off + 2] := be[2];
    b[off + 3] := be[3];
  }

  /** The buffer `writeEvent` allocates and fills: magic byte, id, then a copy of the payload. */
  method BuildFrame(schemaID: int, payload: array<byte>) returns (wire: array<byte>)
    ensures fresh(wire)
    ensures wire[..] == Frame(schemaID, payload[..])
  {
    wire := new byte[5 + payload.Length];
    wire[0] := 0;
    PutUint32(wire, 1, Uint32(schemaID));
    forall i | 0 <= i < payload.Length {
      wire[5 + i] := payload[i];
    }
    assert wire[..5] == [MagicByte] + BigEndian32(Uint32(schemaID));
    assert wire[5..] == payload[..];
    assert wire[..] == wire[..5] + wire[5..];
  }
}
