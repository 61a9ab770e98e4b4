/** 32-bit sequence arithmetic: the wrap-around counters of the reliable transport and the signed
    comparison it uses to order them (pkg/tunnel/reliable.go:1089-1100).

    Every sequence number on the wire is the low 32 bits of an unbounded index. The lemmas here
    say what the wrapped comparisons mean for those indices; no other module unfolds the modulus. */
module SeqNum {

  type uint32 = x: int | 0 <= x < 0x1_0000_0000

  const HALF: int := 0x8000_0000

  /** Go's conversion of an integer to uint32. */
  function Wrap(n: int): uint32 {
    n % 0x1_0000_0000
  }

  function Add(a: uint32, n: int): uint32 {
    Wrap(a + n)
  }

  function Sub(a: uint32, b: uint32): uint32 {
    Wrap(a - b)
  }

  /** Go's conversion int32(x) of a uint32. */
  function Signed(x: uint32): int {
    if x < 0x8000_0000 then x else x - 0x1_0000_0000
  }

  predicate SeqLess(a: uint32, b: uint32) {
    Signed(Sub(a, b)) < 0
  }

  predicate SeqLessOrEqual(a: uint32, b: uint32) {
    Signed(Sub(a, b)) <= 0
  }

  predicate SeqGreater(a: uint32, b: uint32) {
    Signed(Sub(a, b)) > 0
  }

  /** The wrapped comparisons of two indices that are at most half the circle apart are the
      comparisons of the indices themselves. At distance exactly -2^31 they still are. */
  lemma SignedDistance(i: int, j: int)
    requires -0x8000_0000 <= i - j < 0x8000_0000
    ensures Signed(Sub(Wrap(i), Wrap(j))) == i - j
    ensures SeqLess(Wrap(i), Wrap(j)) <==> i < j
    ensures SeqLessOrEqual(Wrap(i), Wrap(j)) <==> i <= j
    ensures SeqGreater(Wrap(i), Wrap(j)) <==> i > j
  {
    hide Wrap, Sub;
    SubWrap(i, j);
    if i - j >= 0 {
      WrapSmall(i - j);
    } else {
      WrapShift(i - j, 1);
      WrapSmall(i - j + 0x1_0000_0000);
    }
  }

  /** At the antipode the comparison is not antisymmetric: each of the two numbers is "less". */
  lemma AntipodeIsAmbiguous(i: int)
    ensures SeqLess(Wrap(i), Wrap(i + HALF)) && SeqLess(Wrap(i + HALF), Wrap(i))
  {
    SubWrap(i, i + HALF);
    SubWrap(i + HALF, i);
    assert Wrap(-HALF) == HALF;
    assert Wrap(HALF) == HALF;
  }

  lemma SubWrap(i: int, j: int)
    ensures Sub(Wrap(i), Wrap(j)) == Wrap(i - j)
  {
    WrapCongruent(i);
    WrapCongruent(j);
    var k := i / 0x1_0000_0000 - j / 0x1_0000_0000;
    assert i - j == (Wrap(i) - Wrap(j)) + 0x1_0000_0000 * k;
    WrapShift(Wrap(i) - Wrap(j), k);
  }

  lemma AddWrap(i: int, n: int)
    ensures Add(Wrap(i), n) == Wrap(i + n)
  {
    WrapCongruent(i);
    WrapShift(Wrap(i) + n, i / 0x1_0000_0000);
  }

  lemma WrapCongruent(i: int)
    ensures i == Wrap(i) + 0x1_0000_0000 * (i / 0x1_0000_0000)
  {
  }

  lemma WrapShift(i: int, k: int)
    ensures Wrap(i + 0x1_0000_0000 * k) == Wrap(i)
  {
  }

  lemma WrapSmall(i: int)
    requires 0 <= i < 0x1_0000_0000
    ensures Wrap(i) == i
  {
  }

  /** Within one turn of the circle, a wrapped number names one index. */
  lemma WrapInjective(i: int, j: int)
    requires Wrap(i) == Wrap(j)
    requires -0x1_0000_0000 < i - j < 0x1_0000_0000
    ensures i == j
  {
  }

  /** Subtracting undoes adding: `base + i` is the only number at offset i from base. */
  lemma OffsetOfSum(base: uint32, i: int, k: uint32)
    requires 0 <= i < 0x1_0000_0000
    ensures Sub(k, base) == i <==> k == Add(base, i)
    ensures Add(base, Sub(k, base)) == k
  {
    if k >= base {
      assert Sub(k, base) == k - base;
    } else {
      assert Sub(k, base) == k - base + 0x1_0000_0000;
    }
    if base + i < 0x1_0000_0000 {
      assert Add(base, i) == base + i;
    } else {
      assert Add(base, i) == base + i - 0x1_0000_0000;
    }
  }

  lemma NextDistance(a: uint32, b: uint32)
    requires Sub(a, b) < 0xFFFF_FFFF
    ensures Wrap(a - b + 1) == Sub(a, b) + 1
  {
    if a >= b {
      assert Sub(a, b) == a - b;
    } else {
      assert Sub(a, b) == a - b + 0x1_0000_0000;
    }
  }

  /** Re-basing: offsets from one number determine the offsets and the order seen from another. */
  lemma OffsetsCompare(a: uint32, b: uint32, base: uint32)
    requires Sub(a, base) < 0x8000_0000 && Sub(b, base) < 0x8000_0000
    ensures SeqLess(a, b) <==> Sub(a, base) < Sub(b, base)
    ensures SeqLessOrEqual(a, b) <==> Sub(a, base) <= Sub(b, base)
    ensures SeqGreater(a, b) <==> Sub(a, base) > Sub(b, base)
  {
    OffsetOfSum(base, Sub(a, base), a);
    OffsetOfSum(base, Sub(b, base), b);
    SignedDistance(base + Sub(a, base), base + Sub(b, base));
  }

  /** On any half circle `seqLess` is a strict total order, which is what makes sorting with it
      meaningful (pkg/tunnel/reliable.go:841-846). */
  lemma HalfCircleOrder(a: uint32, b: uint32, c: uint32, base: uint32)
    requires Sub(a, base) < 0x8000_0000 && Sub(b, base) < 0x8000_0000 && Sub(c, base) < 0x8000_0000
    ensures !SeqLess(a, a)
    ensures SeqLess(a, b) && SeqLess(b, c) ==> SeqLess(a, c)
    ensures a != b ==> SeqLess(a, b) != SeqLess(b, a)
  {
    OffsetsCompare(a, a, base);
    OffsetsCompare(a, b, base);
    OffsetsCompare(b, a, base);
    OffsetsCompare(b, c, base);
    OffsetsCompare(a, c, base);
    OffsetOfSum(base, Sub(a, base), a);
    OffsetOfSum(base, Sub(b, base), b);
  }
}
