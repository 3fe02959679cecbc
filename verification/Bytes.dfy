/** Little-endian machine integers as they cross the pipes: every memcpy of an
    `int` or a `size_t` in unit/test_server.c writes and reads one of these. */
module Bytes {

  type byte = x: int | 0 <= x < 256

  const INT_BYTES: nat := 4
  const SIZE_BYTES: nat := 8
  const INT_LIMIT: nat := 0x8000_0000
  const UINT_LIMIT: nat := 0x1_0000_0000
  const SIZE_LIMIT: nat := 0x1_0000_0000_0000_0000

  function Limit(width: nat): nat {
    if width == 0 then 1 else 256 * Limit(width - 1)
  }

  function Encode(width: nat, v: nat): (b: seq<byte>)
    ensures |b| == width
  {
    if width == 0 then [] else [v % 256] + Encode(width - 1, v / 256)
  }

  function Decode(b: seq<byte>): nat {
    if b == [] then 0 else b[0] + 256 * Decode(b[1..])
  }

  function EncodeInt(v: nat): (b: seq<byte>)
    ensures |b| == INT_BYTES
  {
    Encode(INT_BYTES, v)
  }

  function EncodeSize(v: nat): (b: seq<byte>)
    ensures |b| == SIZE_BYTES
  {
    Encode(SIZE_BYTES, v)
  }

  /** Reading four bytes back as a signed `int`. */
  function DecodeInt(b: seq<byte>): int {
    var u := Decode(b);
    if u >= INT_LIMIT then u - UINT_LIMIT else u
  }

  lemma {:induction false} DecodeEncode(width: nat, v: nat)
    requires v < Limit(width)
    ensures Decode(Encode(width, v)) == v
  {
    if width != 0 {
      assert Encode(width, v)[1..] == Encode(width - 1, v / 256);
      DecodeEncode(width - 1, v / 256);
    }
  }

  lemma DecodeEncodeInt(v: nat)
    requires v < INT_LIMIT
    ensures DecodeInt(EncodeInt(v)) == v
  {
    assert Limit(4) == 256 * (256 * (256 * 256));
    DecodeEncode(INT_BYTES, v);
  }

  lemma DecodeEncodeSize(v: nat)
    requires v < SIZE_LIMIT
    ensures Decode(EncodeSize(v)) == v
  {
    assert Limit(4) == 0x1_0000_0000;
    assert Limit(6) == 65536 * Limit(4);
    assert Limit(8) == 65536 * Limit(6);
    DecodeEncode(SIZE_BYTES, v);
  }
}
