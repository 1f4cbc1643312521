/** Bytes, and the fixed-width integer formats the wire parsers read with Python's `struct`. */
module Bytes {

  datatype Option<+T> = None | Some(value: T)

  type Byte = x: int | 0 <= x < 0x100

  type U16 = x: int | 0 <= x < 0x1_0000

  function Min(a: int, b: int): int {
    if a < b then a else b
  }

  function Max(a: int, b: int): int {
    if a < b then b else a
  }

  /** `struct.pack("!H", n)`. */
  function PackU16(n: U16): (b: seq<Byte>)
    ensures |b| == 2
  {
    [n / 0x100, n % 0x100]
  }

  /** `struct.unpack("!H", b)[0]`. */
  function UnpackU16(b: seq<Byte>): (n: U16)
    requires |b| == 2
  {
    b[0] as int * 0x100 + b[1] as int
  }

  lemma U16RoundTrip(n: U16)
    ensures UnpackU16(PackU16(n)) == n
  {
  }

  /** `chunk` stands in `data` at offset `off`. */
  predicate At(data: seq<Byte>, off: nat, chunk: seq<Byte>) {
    off + |chunk| <= |data| && forall i :: 0 <= i < |chunk| ==> data[off + i] == chunk[i]
  }

  lemma AtSplit(data: seq<Byte>, off: nat, a: seq<Byte>, b: seq<Byte>)
    requires At(data, off, a + b)
    ensures At(data, off, a) && At(data, off + |a|, b)
  {
    forall i | 0 <= i < |a|
      ensures data[off + i] == a[i]
    {
      assert (a + b)[i] == a[i];
    }
    forall i | 0 <= i < |b|
      ensures data[off + |a| + i] == b[i]
    {
      assert (a + b)[|a| + i] == b[i];
    }
  }

  lemma AtSlice(data: seq<Byte>, off: nat, chunk: seq<Byte>)
    requires At(data, off, chunk)
    ensures data[off..off + |chunk|] == chunk
  {
  }

  lemma AtU16(data: seq<Byte>, off: nat, n: U16)
    requires At(data, off, PackU16(n))
    ensures UnpackU16(data[off..off + 2]) == n
  {
    AtSlice(data, off, PackU16(n));
    U16RoundTrip(n);
  }

  lemma AtByte(data: seq<Byte>, off: nat, n: Byte)
    requires At(data, off, [n])
    ensures data[off] == n
  {
    assert [n][0] == n;
  }
}
