/** Byte strings and the big-endian integers of encoding/binary. */
module Bytes {
  import opened SeqNum

  type byte = x: int | 0 <= x < 256
  type uint16 = x: int | 0 <= x < 0x1_0000
  type bytes = seq<byte>

  function Put16(x: uint16): (b: bytes)
    ensures |b| == 2
  {
    [x / 0x100, x % 0x100]
  }

  function Get16(b: bytes): uint16
    requires |b| == 2
  {
    b[0] as int * 0x100 + b[1]
  }

  function Put32(x: uint32): (b: bytes)
    ensures |b| == 4
  {
    [x / 0x100_0000, x / 0x1_0000 % 0x100, x / 0x100 % 0x100, x % 0x100]
  }

  function Get32(b: bytes): uint32
    requires |b| == 4
  {
    b[0] as int * 0x100_0000 + b[1] as int * 0x1_0000 + b[2] as int * 0x100 + b[3]
  }

  /** Big-endian: the most significant byte first. */
  lemma BigEndian(x: uint16, y: uint32)
    ensures NumberAt(Put16(x), 0, 2) == x && NumberAt(Put32(y), 0, 4) == y
  {
    GetPut32(y);
    assert NumberAt(Put16(x), 0, 1) == Put16(x)[0];
    FourBytes(Put32(y));
  }

  lemma FourBytes(b: bytes)
    requires |b| == 4
    ensures NumberAt(b, 0, 4) == Get32(b)
  {
    assert NumberAt(b, 0, 1) == b[0];
    assert NumberAt(b, 0, 2) == b[0] as int * 0x100 + b[1];
    assert NumberAt(b, 0, 3) == b[0] as int * 0x1_0000 + b[1] as int * 0x100 + b[2];
  }

  /** The number the n bytes at `at` spell. */
  function NumberAt(b: bytes, at: nat, n: nat): nat
    requires at + n <= |b|
  {
    if n == 0 then 0 else NumberAt(b, at, n - 1) * 256 + b[at + n - 1]
  }

  lemma {:induction false} NumberInside(front: bytes, b: bytes, rest: bytes, n: nat)
    requires n <= |b|
    ensures NumberAt(front + b + rest, |front|, n) == NumberAt(b, 0, n)
  {
    if n > 0 {
      NumberInside(front, b, rest, n - 1);
    }
  }

  lemma GetPut16(x: uint16)
    ensures Get16(Put16(x)) == x
  {
  }

  lemma GetPut32(x: uint32)
    ensures Get32(Put32(x)) == x
  {
    var x1, r0 := x / 0x100, x % 0x100;
    var x2, r1 := x1 / 0x100, x1 % 0x100;
    var x3, r2 := x2 / 0x100, x2 % 0x100;
    assert x == x1 * 0x100 + r0 && x1 == x2 * 0x100 + r1 && x2 == x3 * 0x100 + r2;
    HighDigits(x, x2, r1 * 0x100 + r0);
    HighByte(x, x3, r2 * 0x1_0000 + r1 * 0x100 + r0);
  }

  lemma HighDigits(x: nat, q: nat, r: nat)
    requires x == q * 0x1_0000 + r && r < 0x1_0000
    ensures x / 0x1_0000 == q
  {
  }

  lemma HighByte(x: nat, q: nat, r: nat)
    requires x == q * 0x100_0000 + r && r < 0x100_0000
    ensures x / 0x100_0000 == q
  {
  }

  lemma PutGet32(b: bytes)
    requires |b| == 4
    ensures Put32(Get32(b)) == b
  {
    var x := Get32(b);
    assert x / 0x100_0000 == b[0];
    assert x / 0x1_0000 == b[0] as int * 0x100 + b[1];
    assert x / 0x100 == b[0] as int * 0x1_0000 + b[1] as int * 0x100 + b[2];
  }

  /** binary.BigEndian.PutUint16(buf[at:at+2], x) */
  method PutUint16(buf: array<byte>, at: nat, x: uint16)
    requires at + 2 <= buf.Length
    modifies buf
    ensures buf[..] == old(buf[..at]) + Put16(x) + old(buf[at + 2..])
  {
    buf[at] := x / 0x100;
    buf[at + 1] := x % 0x100;
  }

  /** binary.BigEndian.PutUint32(buf[at:at+4], x) */
  method PutUint32(buf: array<byte>, at: nat, x: uint32)
    requires at + 4 <= buf.Length
    modifies buf
    ensures buf[..] == old(buf[..at]) + Put32(x) + old(buf[at + 4..])
  {
    buf[at] := x / 0x100_0000;
    buf[at + 1] := x / 0x1_0000 % 0x100;
    buf[at + 2] := x / 0x100 % 0x100;
    buf[at + 3] := x % 0x100;
  }

  /** copy(buf[at:], src) for a source that fits */
  method CopyInto(buf: array<byte>, at: nat, src: bytes)
    requires at + |src| <= buf.Length
    modifies buf
    ensures buf[..] == old(buf[..at]) + src + old(buf[at + |src|..])
  {
    forall i | 0 <= i < |src| {
      buf[at + i] := src[i];
    }
  }

  /** A buffer of which `front` has been written, before and after writing `mid` next. */
  lemma WriteNext(front: bytes, mid: bytes, was: bytes, before: bytes, after: bytes)
    requires |front| + |mid| <= |was|
    requires before == front + was[|front|..]
    requires after == before[..|front|] + mid + before[|front| + |mid|..]
    ensures after == front + mid + was[|front| + |mid|..]
  {
    assert before[..|front|] == front;
    assert before[|front| + |mid|..] == was[|front| + |mid|..];
  }
}
