/** Bytes and the big-endian integers that every packet layout is made of. */
module Bytes {

  type Byte = x: int | 0 <= x < 0x100
  type U16 = x: int | 0 <= x < 0x1_0000
  type U32 = x: int | 0 <= x < 0x1_0000_0000

  const MAX_U16: int := 0xFFFF
  const MAX_U32: int := 0xFFFF_FFFF

  function GetU16(b: seq<Byte>, i: nat): (x: nat)
    requires i + 2 <= |b|
    ensures x < 0x1_0000
  {
    b[i] as int * 0x100 + b[i + 1] as int
  }

  function GetU32(b: seq<Byte>, i: nat): (x: nat)
    requires i + 4 <= |b|
    ensures x < 0x1_0000_0000
  {
    GetU16(b, i) * 0x1_0000 + GetU16(b, i + 2)
  }

  /** The low 16 bits of x, as a conversion to `uint16` keeps them. */
  function PutU16(x: int): (b: seq<Byte>)
    ensures |b| == 2 && GetU16(b, 0) == x % 0x1_0000
  {
    [x / 0x100 % 0x100, x % 0x100]
  }

  lemma HalvesOf(x: int)
    ensures x % 0x1_0000_0000 == x / 0x1_0000 % 0x1_0000 * 0x1_0000 + x % 0x1_0000
  {
  }

  lemma Joined(high: seq<Byte>, low: seq<Byte>)
    requires |high| == |low| == 2
    ensures GetU32(high + low, 0) == GetU16(high, 0) * 0x1_0000 + GetU16(low, 0)
  {
  }

  /** The low 32 bits of x, as a conversion to `uint32` keeps them. */
  function PutU32(x: int): (b: seq<Byte>)
    ensures |b| == 4 && GetU32(b, 0) == x % 0x1_0000_0000
  {
    HalvesOf(x);
    Joined(PutU16(x / 0x1_0000), PutU16(x));
    PutU16(x / 0x1_0000) + PutU16(x)
  }

  ghost predicate AllZero(b: seq<Byte>) {
    forall i :: 0 <= i < |b| ==> b[i] == 0
  }

  function Zeros(n: nat): (b: seq<Byte>)
    ensures |b| == n && AllZero(b)
  {
    seq(n, _ => 0)
  }

  /** Two bytes are one 16-bit value and back. */
  lemma U16Bytes(b: seq<Byte>, i: nat)
    requires i + 2 <= |b|
    ensures PutU16(GetU16(b, i)) == b[i..i + 2]
  {
    assert GetU16(b, i) / 0x100 == b[i];
  }

  /** Four bytes are one 32-bit value and back. */
  lemma U32Bytes(b: seq<Byte>, i: nat)
    requires i + 4 <= |b|
    ensures PutU32(GetU32(b, i)) == b[i..i + 4]
  {
    U16Bytes(b, i);
    U16Bytes(b, i + 2);
    assert GetU32(b, i) / 0x1_0000 == GetU16(b, i);
    assert PutU16(GetU32(b, i)) == PutU16(GetU16(b, i + 2));
  }

  /** A value laid out in front of r is read back, and r is what follows. */
  lemma FrontU16(x: int, r: seq<Byte>)
    ensures var b := PutU16(x) + r; GetU16(b, 0) == x % 0x1_0000 && b[2..] == r
  {
  }

  lemma FrontU32(x: int, r: seq<Byte>)
    ensures var b := PutU32(x) + r; GetU32(b, 0) == x % 0x1_0000_0000 && b[4..] == r
  {
  }

  lemma PairU32(x: U32, y: U32)
    ensures var b := PutU32(x) + PutU32(y); GetU32(b, 0) == x && GetU32(b, 4) == y
  {
    FrontU32(x, PutU32(y));
    Dropped(PutU32(x) + PutU32(y), 4, 0);
  }

  /** Reading at k + i is reading at i after k bytes are dropped. */
  lemma Dropped(b: seq<Byte>, k: nat, i: nat)
    requires k + i + 2 <= |b|
    ensures GetU16(b, k + i) == GetU16(b[k..], i)
    ensures k + i + 4 <= |b| ==> GetU32(b, k + i) == GetU32(b[k..], i)
  {
  }

  /** Reading inside a slice is reading in the whole. */
  lemma Sliced(b: seq<Byte>, at: nat, end: nat, i: nat)
    requires at + i + 2 <= end <= |b|
    ensures GetU16(b[at..end], i) == GetU16(b, at + i)
  {
  }

  /** A slice of a slice is a slice of the whole. */
  lemma SliceOfSlice(b: seq<Byte>, at: nat, end: nat, from: nat, to: nat)
    requires from <= to && at + to <= end <= |b|
    ensures b[at..end][from..to] == b[at + from..at + to]
  {
    var x, y := b[at..end][from..to], b[at + from..at + to];
    forall i | 0 <= i < |x| ensures x[i] == y[i] {
      assert x[i] == b[at..end][from + i];
    }
  }

  /** Reading inside a prefix is reading in the prefix. */
  lemma Kept(b: seq<Byte>, r: seq<Byte>, i: nat)
    requires i + 2 <= |b|
    ensures GetU16(b + r, i) == GetU16(b, i)
    ensures i + 4 <= |b| ==> GetU32(b + r, i) == GetU32(b, i)
  {
  }

  /** The header of a set: its ID and its length, which includes the header. */
  lemma SetHeaderRead(id: U16, content: seq<Byte>, rest: seq<Byte>)
    requires 4 + |content| <= MAX_U16
    ensures var b := PutU16(id) + PutU16(4 + |content|) + content + rest;
            GetU16(b, 0) == id && GetU16(b, 2) == 4 + |content| && b[4..4 + |content|] == content
  {
    hide GetU16;
    var b := PutU16(id) + PutU16(4 + |content|) + content + rest;
    var tail := PutU16(4 + |content|) + (content + rest);
    assert b == PutU16(id) + tail;
    FrontU16(id, tail);
    FrontU16(4 + |content|, content + rest);
    Dropped(b, 2, 0);
  }

  /** Two 16-bit values in front of r are read back, and r is what follows. */
  lemma FrontTwo(x: U16, y: U16, r: seq<Byte>)
    ensures var b := PutU16(x) + PutU16(y) + r; GetU16(b, 0) == x && GetU16(b, 2) == y && b[4..] == r
  {
    hide GetU16;
    var b := PutU16(x) + PutU16(y) + r;
    assert b == PutU16(x) + (PutU16(y) + r) && b[2..] == PutU16(y) + r;
    FrontU16(x, PutU16(y) + r);
    FrontU16(y, r);
    Dropped(b, 2, 0);
  }

  /** Three 16-bit values in front of r are read back, and r is what follows. */
  lemma FrontThree(x: U16, y: U16, z: U16, r: seq<Byte>)
    ensures var b := PutU16(x) + PutU16(y) + PutU16(z) + r;
            GetU16(b, 0) == x && GetU16(b, 2) == y && GetU16(b, 4) == z && b[6..] == r
  {
    hide GetU16;
    var b := PutU16(x) + PutU16(y) + PutU16(z) + r;
    assert b == PutU16(x) + (PutU16(y) + (PutU16(z) + r));
    FrontU16(x, PutU16(y) + (PutU16(z) + r));
    FrontU16(y, PutU16(z) + r);
    FrontU16(z, r);
    assert b[2..] == PutU16(y) + (PutU16(z) + r) && b[4..] == PutU16(z) + r;
    Dropped(b, 2, 0);
    Dropped(b, 4, 0);
  }
}
