/** Bytes as small numbers, the widths of machine integers, and the two byte orders. */
module Bytes {

  type Byte = n: nat | n < 256

  const U8: nat := 0x100
  const U16: nat := 0x1_0000
  const U32: nat := 0x1_0000_0000
  const U64: nat := 0x1_0000_0000_0000_0000
  const U128: nat := 0x1_0000_0000_0000_0000_0000_0000_0000_0000

  /** The number of values of an integer of `width` bytes. */
  function Range(width: nat): (r: nat)
    ensures r > 0
  {
    if width == 0 then 1 else U8 * Range(width - 1)
  }

  lemma Ranges()
    ensures Range(2) == U16 && Range(4) == U32 && Range(8) == U64
  {
    assert Range(4) == U8 * U8 * Range(2);
    assert Range(6) == U8 * U8 * Range(4);
    assert Range(8) == U8 * U8 * Range(6);
  }

  function BigEndian(n: nat, width: nat): (bytes: seq<Byte>)
    ensures |bytes| == width
  {
    if width == 0 then [] else BigEndian(n / 256, width - 1) + [n % 256]
  }

  function FromBigEndian(bytes: seq<Byte>): nat {
    if bytes == [] then 0 else 256 * FromBigEndian(bytes[..|bytes| - 1]) + bytes[|bytes| - 1]
  }

  lemma {:induction false} BigEndianRoundTrip(n: nat, width: nat)
    requires n < Range(width)
    ensures FromBigEndian(BigEndian(n, width)) == n
  {
    if width > 0 {
      BigEndianRoundTrip(n / 256, width - 1);
      var bytes := BigEndian(n, width);
      assert bytes[..|bytes| - 1] == BigEndian(n / 256, width - 1);
    }
  }

  lemma {:induction false} BigEndianBack(bytes: seq<Byte>)
    ensures BigEndian(FromBigEndian(bytes), |bytes|) == bytes
  {
    if bytes != [] {
      var front := bytes[..|bytes| - 1];
      BigEndianBack(front);
      assert bytes == front + [bytes[|bytes| - 1]];
    }
  }

  function ToLittleEndian(n: nat, width: nat): (bytes: seq<Byte>)
    ensures |bytes| == width
  {
    if width == 0 then [] else [n % 256] + ToLittleEndian(n / 256, width - 1)
  }

  function FromLittleEndian(bytes: seq<Byte>): nat {
    if bytes == [] then 0 else bytes[0] + 256 * FromLittleEndian(bytes[1..])
  }

  lemma {:induction false} LittleEndianRoundTrip(n: nat, width: nat)
    requires n < Range(width)
    ensures FromLittleEndian(ToLittleEndian(n, width)) == n
  {
    if width > 0 {
      LittleEndianRoundTrip(n / 256, width - 1);
      assert ToLittleEndian(n, width)[1..] == ToLittleEndian(n / 256, width - 1);
    }
  }

  lemma {:induction false} LittleEndianBack(bytes: seq<Byte>)
    ensures FromLittleEndian(bytes) < Range(|bytes|) && ToLittleEndian(FromLittleEndian(bytes), |bytes|) == bytes
  {
    if bytes != [] {
      LittleEndianBack(bytes[1..]);
      assert bytes == [bytes[0]] + bytes[1..];
    }
  }

  /** The bytes above a position count in steps of its range. */
  lemma {:induction false} LittleEndianSplit(bytes: seq<Byte>, k: nat)
    requires k <= |bytes|
    ensures FromLittleEndian(bytes) == FromLittleEndian(bytes[..k]) + Range(k) * FromLittleEndian(bytes[k..])
  {
    if k > 0 {
      LittleEndianSplit(bytes[1..], k - 1);
      assert bytes[..k][1..] == bytes[1..][..k - 1] && bytes[1..][k - 1..] == bytes[k..];
      var high := FromLittleEndian(bytes[k..]);
      assert 256 * (Range(k - 1) * high) == Range(k) * high;
    } else {
      assert bytes[0..] == bytes;
    }
  }

  lemma {:induction false} LittleEndianZeroIff(bytes: seq<Byte>)
    ensures FromLittleEndian(bytes) == 0 <==> forall k :: 0 <= k < |bytes| ==> bytes[k] == 0
  {
    if bytes != [] {
      LittleEndianZeroIff(bytes[1..]);
      assert forall k :: 0 < k < |bytes| ==> bytes[k] == bytes[1..][k - 1];
    }
  }
}
