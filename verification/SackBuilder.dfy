/** Building SACK blocks from the out-of-order buffer (pkg/tunnel/reliable.go:826-869): collect the
    keys, sort them with the wrap-aware comparison, cut them into runs, keep the first four. */
module SackBuilder {
  import opened SeqNum
  import opened Bytes
  import opened ReliableCodec

  /** Strictly ascending as seen from base, all within the half circle after it. */
  ghost predicate Ascending(s: seq<uint32>, base: uint32) {
    && (forall i :: 0 <= i < |s| ==> Sub(s[i], base) < 0x8000_0000)
    && (forall i, j :: 0 <= i < j < |s| ==> Sub(s[i], base) < Sub(s[j], base))
  }

  ghost predicate InHalfCircle(keys: set<uint32>, base: uint32) {
    forall k :: k in keys ==> 0 < Sub(k, base) < 0x8000_0000
  }

  // ---- The specification ---------------------------------------------------------------------

  /** The runs of consecutive numbers in a sequence, left to right. */
  function Runs(s: seq<uint32>): (r: seq<SackBlock>)
    ensures s != [] ==> r != [] && r[|r| - 1].right == s[|s| - 1]
  {
    if s == [] then []
    else Extend(Runs(s[..|s| - 1]), s[|s| - 1])
  }

  function Extend(r: seq<SackBlock>, x: uint32): seq<SackBlock> {
    if r != [] && x == Add(r[|r| - 1].right, 1) then r[..|r| - 1] + [SackBlock(r[|r| - 1].left, x)]
    else r + [SackBlock(x, x)]
  }

  function FirstFour(r: seq<SackBlock>): seq<SackBlock> {
    if |r| <= MAX_SACK_BLOCKS then r else r[..MAX_SACK_BLOCKS]
  }

  ghost predicate Least(k: uint32, keys: set<uint32>, base: uint32) {
    k in keys && forall k' :: k' in keys ==> Sub(k, base) <= Sub(k', base)
  }

  lemma Nearest(keys: set<uint32>, base: uint32) returns (k: uint32)
    requires keys != {}
    ensures Least(k, keys, base)
  {
    var x :| x in keys;
    var rest := keys - {x};
    if rest == {} {
      k := x;
    } else {
      var m := Nearest(rest, base);
      k := if Sub(m, base) < Sub(x, base) then m else x;
    }
    assert forall k' :: k' in keys ==> k' == x || k' in rest;
  }

  /** The keys in ascending order from base. */
  ghost function Sorted(keys: set<uint32>, base: uint32): (s: seq<uint32>)
    ensures forall k :: k in s <==> k in keys
  {
    if keys == {} then []
    else
      assert exists k :: Least(k, keys, base) by {
        var k := Nearest(keys, base);
      }
      var k :| Least(k, keys, base);
      [k] + Sorted(keys - {k}, base)
  }

  ghost function SackBlocks(keys: set<uint32>, base: uint32): seq<SackBlock> {
    FirstFour(Runs(Sorted(keys, base)))
  }

  lemma SubInjective(a: uint32, b: uint32, base: uint32)
    ensures Sub(a, base) == Sub(b, base) ==> a == b
  {
    OffsetOfSum(base, Sub(a, base), a);
    OffsetOfSum(base, Sub(b, base), b);
  }

  lemma {:induction false} SortedIsAscending(keys: set<uint32>, base: uint32)
    requires forall k :: k in keys ==> Sub(k, base) < 0x8000_0000
    ensures Ascending(Sorted(keys, base), base)
  {
    hide Sub, Ascending;
    if keys == {} {
      EmptyAscending(base);
    } else {
      var s := Sorted(keys, base);
      var k :| Least(k, keys, base) && s == [k] + Sorted(keys - {k}, base);
      var rest := Sorted(keys - {k}, base);
      SortedIsAscending(keys - {k}, base);
      forall j | 0 <= j < |rest| ensures Sub(k, base) < Sub(rest[j], base) {
        assert rest[j] in rest;
        SubInjective(k, rest[j], base);
      }
      PrependAscending(k, rest, base);
    }
  }

  lemma EmptyAscending(base: uint32)
    ensures Ascending([], base)
  {
  }

  lemma PrependAscending(k: uint32, rest: seq<uint32>, base: uint32)
    requires Ascending(rest, base) && Sub(k, base) < 0x8000_0000
    requires forall j :: 0 <= j < |rest| ==> Sub(k, base) < Sub(rest[j], base)
    ensures Ascending([k] + rest, base)
  {
    hide Sub;
  }

  /** There is only one way to put a set in ascending order. */
  lemma {:induction false} AscendingUnique(a: seq<uint32>, b: seq<uint32>, base: uint32)
    requires Ascending(a, base) && Ascending(b, base)
    requires forall k :: k in a <==> k in b
    ensures a == b
  {
    hide Wrap;
    assert a != [] ==> a[0] in a;
    assert b != [] ==> b[0] in b;
    if a != [] {
      var i :| 0 <= i < |b| && b[i] == a[0];
      var j :| 0 <= j < |a| && a[j] == b[0];
      assert a[0] == b[0];
      forall k ensures k in a[1..] <==> k in b[1..] {
        if k in a[1..] {
          assert k in a && k != a[0];
        }
        if k in b[1..] {
          assert k in b && k != b[0];
        }
      }
      AscendingUnique(a[1..], b[1..], base);
      assert a == [a[0]] + a[1..] && b == [b[0]] + b[1..];
    }
  }

  // ---- Exactness -----------------------------------------------------------------------------

  ghost predicate Contains(b: SackBlock, k: uint32, base: uint32) {
    Sub(b.left, base) <= Sub(k, base) <= Sub(b.right, base)
  }

  ghost predicate Covered(r: seq<SackBlock>, k: uint32, base: uint32) {
    exists i :: 0 <= i < |r| && Contains(r[i], k, base)
  }

  /** Ascending, disjoint and not even adjacent. */
  ghost predicate Separated(r: seq<SackBlock>, base: uint32) {
    && (forall i :: 0 <= i < |r| ==> Sub(r[i].left, base) <= Sub(r[i].right, base) < 0x8000_0000)
    && (forall i, j :: 0 <= i < j < |r| ==> Sub(r[i].right, base) + 1 < Sub(r[j].left, base))
  }

  lemma ExtendSeparated(r: seq<SackBlock>, x: uint32, base: uint32)
    requires Separated(r, base) && Sub(x, base) < 0x8000_0000
    requires r != [] ==> Sub(r[|r| - 1].right, base) < Sub(x, base)
    ensures Separated(Extend(r, x), base)
  {
    if r != [] {
      NextOffset(r[|r| - 1].right, x, base);
    }
    hide Wrap, Sub, Add;
  }

  lemma CoveredSnoc(r: seq<SackBlock>, b: SackBlock, k: uint32, base: uint32)
    ensures Covered(r + [b], k, base) <==> Covered(r, k, base) || Contains(b, k, base)
  {
    hide Contains;
    if Covered(r, k, base) {
      var i :| 0 <= i < |r| && Contains(r[i], k, base);
      assert Contains((r + [b])[i], k, base);
    }
    assert (r + [b])[|r|] == b;
  }

  lemma ExtendCovers(r: seq<SackBlock>, x: uint32, base: uint32, k: uint32)
    requires Separated(r, base) && Sub(x, base) < 0x8000_0000
    requires r != [] ==> Sub(r[|r| - 1].right, base) < Sub(x, base)
    ensures Covered(Extend(r, x), k, base) <==> Covered(r, k, base) || k == x
  {
    SubInjective(k, x, base);
    if r != [] {
      var front, last := r[..|r| - 1], r[|r| - 1];
      NextOffset(last.right, x, base);
      assert r == front + [last];
      CoveredSnoc(front, last, k, base);
      CoveredSnoc(front, SackBlock(last.left, x), k, base);
    }
    CoveredSnoc(r, SackBlock(x, x), k, base);
    hide Wrap, Sub, Add, Covered;
  }

  lemma NextOffset(a: uint32, x: uint32, base: uint32)
    requires Sub(a, base) < Sub(x, base) < 0x8000_0000
    ensures x == Add(a, 1) <==> Sub(x, base) == Sub(a, base) + 1
  {
    OffsetOfSum(base, Sub(a, base), a);
    AddWrap(base + Sub(a, base), 1);
    OffsetOfSum(base, Sub(a, base) + 1, x);
  }

  lemma {:induction false} RunsExact(s: seq<uint32>, base: uint32)
    requires Ascending(s, base)
    ensures Separated(Runs(s), base)
    ensures forall k :: Covered(Runs(s), k, base) <==> k in s
  {
    if s != [] {
      var init, x := s[..|s| - 1], s[|s| - 1];
      var r' := Runs(init);
      assert s == init + [x];
      assert init == [] ==> r' == [];
      hide Covered, Separated, Extend, Runs;
      RunsExact(init, base);
      ExtendSeparated(r', x, base);
      forall k ensures Covered(Extend(r', x), k, base) <==> Covered(r', k, base) || k == x {
        ExtendCovers(r', x, base, k);
      }
    }
  }

  ghost predicate HoldKeysOnly(blocks: seq<SackBlock>, keys: set<uint32>, base: uint32) {
    forall k :: Covered(blocks, k, base) ==> k in keys
  }

  ghost predicate Maximal(blocks: seq<SackBlock>, keys: set<uint32>) {
    forall i :: 0 <= i < |blocks| ==> Add(blocks[i].left, -1) !in keys && Add(blocks[i].right, 1) !in keys
  }

  ghost predicate OnlyLaterMissing(blocks: seq<SackBlock>, keys: set<uint32>, base: uint32) {
    forall k :: k in keys && !Covered(blocks, k, base) ==>
      |blocks| == 4 && Sub(blocks[3].right, base) + 1 < Sub(k, base)
  }

  /** Exactly the first runs of the key set, counted from base: at most four blocks, ascending,
      disjoint and non-adjacent; each block holds keys only and is maximal; and a key outside the
      blocks exists only past a full list of four. */
  ghost predicate Exact(blocks: seq<SackBlock>, keys: set<uint32>, base: uint32) {
    && |blocks| <= 4
    && Separated(blocks, base)
    && HoldKeysOnly(blocks, keys, base)
    && Maximal(blocks, keys)
    && OnlyLaterMissing(blocks, keys, base)
  }

  lemma OutsideSeparated(r: seq<SackBlock>, i: nat, k: uint32, base: uint32)
    requires Separated(r, base) && i < |r|
    requires Sub(k, base) + 1 == Sub(r[i].left, base) || Sub(k, base) == Sub(r[i].right, base) + 1
    ensures !Covered(r, k, base)
  {
    hide Wrap;
    forall j | 0 <= j < |r| ensures !Contains(r[j], k, base) {
      if j < i {
        assert Sub(r[j].right, base) + 1 < Sub(r[i].left, base);
      } else if j > i {
        assert Sub(r[i].right, base) + 1 < Sub(r[j].left, base);
      }
    }
  }

  lemma BeyondFirstFour(r: seq<SackBlock>, k: uint32, base: uint32)
    requires Separated(r, base) && Covered(r, k, base)
    ensures Covered(FirstFour(r), k, base) ||
            (|r| > MAX_SACK_BLOCKS && Sub(r[MAX_SACK_BLOCKS - 1].right, base) + 1 < Sub(k, base))
  {
    hide Wrap;
    var i :| 0 <= i < |r| && Contains(r[i], k, base);
    if i < |FirstFour(r)| {
      assert Contains(FirstFour(r)[i], k, base);
    } else {
      assert Sub(r[MAX_SACK_BLOCKS - 1].right, base) + 1 < Sub(r[i].left, base);
    }
  }

  lemma FirstFourCovers(r: seq<SackBlock>, k: uint32, base: uint32)
    ensures Covered(FirstFour(r), k, base) ==> Covered(r, k, base)
  {
    if Covered(FirstFour(r), k, base) {
      var i :| 0 <= i < |FirstFour(r)| && Contains(FirstFour(r)[i], k, base);
      assert Contains(r[i], k, base);
    }
  }

  /** buildSackBlocks reports the buffer exactly. */
  lemma SackBlocksExact(keys: set<uint32>, base: uint32)
    requires InHalfCircle(keys, base)
    ensures Exact(SackBlocks(keys, base), keys, base)
  {
    hide Wrap, Sorted, Runs, Covered, Sub, Add;
    var r := Runs(Sorted(keys, base));
    var blocks := FirstFour(r);
    SortedIsAscending(keys, base);
    RunsExact(Sorted(keys, base), base);
    assert HoldKeysOnly(blocks, keys, base) by {
      forall k | Covered(blocks, k, base) ensures k in keys {
        FirstFourCovers(r, k, base);
      }
    }
    assert Maximal(blocks, keys) by {
      forall i | 0 <= i < |blocks| ensures Add(blocks[i].left, -1) !in keys && Add(blocks[i].right, 1) !in keys {
        BlockEndsAreGaps(r, i, keys, base);
      }
    }
    assert OnlyLaterMissing(blocks, keys, base) by {
      forall k | k in keys && !Covered(blocks, k, base)
        ensures |blocks| == MAX_SACK_BLOCKS && Sub(blocks[MAX_SACK_BLOCKS - 1].right, base) + 1 < Sub(k, base)
      {
        BeyondFirstFour(r, k, base);
      }
    }
  }

  /** There is something to report exactly when something is buffered. */
  lemma SackBlocksEmpty(keys: set<uint32>, base: uint32)
    ensures SackBlocks(keys, base) == [] <==> keys == {}
  {
    assert Sorted(keys, base) == [] <==> keys == {};
  }

  lemma StepDown(l: uint32, base: uint32)
    requires 0 < Sub(l, base)
    ensures Sub(Add(l, -1), base) == Sub(l, base) - 1
  {
    hide Wrap, Sub, Add;
    OffsetOfSum(base, Sub(l, base), l);
    assert Add(l, -1) == Add(base, Sub(l, base) - 1) by { Shifted(base, Sub(l, base), -1); }
    OffsetOfSum(base, Sub(l, base) - 1, Add(l, -1));
  }

  lemma StepUp(h: uint32, base: uint32)
    requires Sub(h, base) < 0xFFFF_FFFF
    ensures Sub(Add(h, 1), base) == Sub(h, base) + 1
  {
    hide Wrap, Sub, Add;
    OffsetOfSum(base, Sub(h, base), h);
    assert Add(h, 1) == Add(base, Sub(h, base) + 1) by { Shifted(base, Sub(h, base), 1); }
    OffsetOfSum(base, Sub(h, base) + 1, Add(h, 1));
  }

  lemma Shifted(base: uint32, n: int, d: int)
    ensures Add(Add(base, n), d) == Add(base, n + d)
  {
    AddWrap(base + n, d);
  }

  lemma BlockEndsAreGaps(r: seq<SackBlock>, i: nat, keys: set<uint32>, base: uint32)
    requires Separated(r, base) && i < |r| && InHalfCircle(keys, base)
    requires forall k :: Covered(r, k, base) <==> k in keys
    ensures Add(r[i].left, -1) !in keys && Add(r[i].right, 1) !in keys
  {
    hide Wrap, Sub, Add;
    var l, h := r[i].left, r[i].right;
    assert Contains(r[i], l, base) && Contains(r[i], h, base);
    assert Covered(r, l, base) && Covered(r, h, base);
    StepDown(l, base);
    StepUp(h, base);
    OutsideSeparated(r, i, Add(l, -1), base);
    OutsideSeparated(r, i, Add(h, 1), base);
  }

  // ---- The method ----------------------------------------------------------------------------

  lemma RunsSnoc(s: seq<uint32>, i: nat)
    requires i < |s|
    ensures Runs(s[..i + 1]) == Extend(Runs(s[..i]), s[i])
  {
    assert s[..i + 1][..i] == s[..i];
  }

  /** Once a fifth run has started, the first four are final. */
  lemma {:induction false} FirstFourFinal(s: seq<uint32>, i: nat)
    requires i <= |s| && |Runs(s[..i])| > MAX_SACK_BLOCKS
    ensures FirstFour(Runs(s)) == FirstFour(Runs(s[..i]))
    decreases |s| - i
  {
    if i == |s| {
      assert s[..i] == s;
    } else {
      RunsSnoc(s, i);
      FirstFourFinal(s, i + 1);
    }
  }

  method SwapElements(a: array<uint32>, i: nat, j: nat)
    requires i < a.Length && j < a.Length
    modifies a
    ensures a[..] == old(a[..])[i := old(a[j])][j := old(a[i])]
    ensures multiset(a[..]) == multiset(old(a[..]))
  {
    a[i], a[j] := a[j], a[i];
  }

  /** Ascending except that position j may be too far right. */
  ghost predicate AscendingBut(s: seq<uint32>, n: nat, j: nat, base: uint32)
    requires n <= |s|
  {
    forall p, q :: 0 <= p < q < n && q != j ==> Sub(s[p], base) <= Sub(s[q], base)
  }

  ghost predicate InHalf(s: seq<uint32>, base: uint32) {
    forall i :: 0 <= i < |s| ==> Sub(s[i], base) < 0x8000_0000
  }

  /** One pass of the inner loop: element i moves left to its place. */
  method Insert(a: array<uint32>, i: nat, ghost base: uint32)
    requires i < a.Length && InHalf(a[..], base) && AscendingBut(a[..], i, a.Length, base)
    modifies a
    ensures multiset(a[..]) == multiset(old(a[..]))
    ensures InHalf(a[..], base) && AscendingBut(a[..], i + 1, a.Length, base)
  {
    hide Wrap, Sub;
    var j := i;
    while j > 0 && SeqLess(a[j], a[j - 1])
      invariant 0 <= j <= i < a.Length
      invariant multiset(a[..]) == multiset(old(a[..]))
      invariant InHalf(a[..], base) && AscendingBut(a[..], i + 1, j, base)
    {
      ghost var s := a[..];
      assert Sub(s[j], base) < 0x8000_0000 && Sub(s[j - 1], base) < 0x8000_0000;
      OffsetsCompare(a[j], a[j - 1], base);
      SwapKeepsAscending(s, i + 1, j, base);
      SwapElements(a, j, j - 1);
      j := j - 1;
    }
    if j > 0 {
      assert Sub(a[..][j], base) < 0x8000_0000 && Sub(a[..][j - 1], base) < 0x8000_0000;
      OffsetsCompare(a[j], a[j - 1], base);
    }
    InsertedInPlace(a[..], i + 1, j, base);
  }

  /** Insertion sort with the wrap-aware comparison, in place. */
  method InsertionSort(a: array<uint32>, ghost base: uint32)
    requires InHalf(a[..], base)
    modifies a
    ensures multiset(a[..]) == multiset(old(a[..]))
    ensures AscendingBut(a[..], a.Length, a.Length, base)
  {
    hide InHalf;
    if a.Length == 0 {
      return;
    }
    var i := 1;
    while i < a.Length
      invariant 1 <= i <= a.Length
      invariant multiset(a[..]) == multiset(old(a[..]))
      invariant InHalf(a[..], base) && AscendingBut(a[..], i, a.Length, base)
    {
      Insert(a, i, base);
      i := i + 1;
    }
  }

  lemma SwapKeepsAscending(s: seq<uint32>, n: nat, j: nat, base: uint32)
    requires 0 < j < n <= |s| && AscendingBut(s, n, j, base) && InHalf(s, base)
    requires Sub(s[j], base) < Sub(s[j - 1], base)
    ensures AscendingBut(s[j := s[j - 1]][j - 1 := s[j]], n, j - 1, base)
    ensures InHalf(s[j := s[j - 1]][j - 1 := s[j]], base)
  {
    hide Sub;
  }

  lemma InsertedInPlace(s: seq<uint32>, n: nat, j: nat, base: uint32)
    requires j < n <= |s| && AscendingBut(s, n, j, base)
    requires j > 0 ==> Sub(s[j - 1], base) <= Sub(s[j], base)
    ensures AscendingBut(s, n, |s|, base)
  {
    forall p, q | 0 <= p < q < n ensures Sub(s[p], base) <= Sub(s[q], base) {
      if q == j && p < j - 1 {
        assert Sub(s[p], base) <= Sub(s[j - 1], base);
      }
    }
  }

  lemma Repeated(s: seq<uint32>, i: nat, j: nat)
    requires i < j < |s| && s[i] == s[j]
    ensures multiset(s)[s[i]] >= 2
  {
    assert s == s[..i] + [s[i]] + s[i + 1..j] + [s[j]] + s[j + 1..];
  }

  lemma SortedDistinct(s: seq<uint32>, keys: set<uint32>, base: uint32)
    requires multiset(s) == multiset(keys)
    requires forall k :: k in keys ==> Sub(k, base) < 0x8000_0000
    requires AscendingBut(s, |s|, |s|, base)
    ensures Ascending(s, base)
    ensures forall k :: k in s <==> k in keys
  {
    hide Sub;
    forall k ensures k in s <==> k in keys {
      assert k in s <==> k in multiset(s);
    }
    forall i, j | 0 <= i < j < |s| ensures Sub(s[i], base) < Sub(s[j], base) {
      assert s[i] != s[j] by {
        assert multiset(keys)[s[i]] <= 1;
        if s[i] == s[j] {
          Repeated(s, i, j);
        }
      }
      SubInjective(s[i], s[j], base);
    }
  }

  method CollectKeys(outOfOrder: map<uint32, bytes>) returns (seqs: array<uint32>)
    ensures fresh(seqs) && multiset(seqs[..]) == multiset(outOfOrder.Keys)
  {
    seqs := new uint32[|outOfOrder|];
    var rest := outOfOrder.Keys;
    var n := 0;
    while rest != {}
      invariant rest <= outOfOrder.Keys
      invariant n + |rest| == seqs.Length
      invariant multiset(seqs[..n]) + multiset(rest) == multiset(outOfOrder.Keys)
      decreases |rest|
    {
      var k :| k in rest;
      seqs[n] := k;
      assert seqs[..n + 1] == seqs[..n] + [k];
      assert multiset(rest) == multiset{k} + multiset(rest - {k});
      rest := rest - {k};
      n := n + 1;
    }
    assert seqs[..n] == seqs[..];
  }

  method CutRuns(seqs: array<uint32>) returns (blocks: seq<SackBlock>)
    requires seqs.Length > 0
    ensures blocks == FirstFour(Runs(seqs[..]))
  {
    ghost var s := seqs[..];
    blocks := [];
    var block := SackBlock(seqs[0], seqs[0]);
    RunsSnoc(s, 0);
    var i := 1;
    while i < seqs.Length
      invariant 1 <= i <= seqs.Length
      invariant |blocks| < MAX_SACK_BLOCKS
      invariant blocks + [block] == Runs(s[..i])
    {
      RunsSnoc(s, i);
      if seqs[i] == Add(block.right, 1) {
        block := block.(right := seqs[i]);
      } else {
        blocks := blocks + [block];
        if |blocks| >= MAX_SACK_BLOCKS {
          FirstFourFinal(s, i + 1);
          break;
        }
        block := SackBlock(seqs[i], seqs[i]);
      }
      i := i + 1;
    }
    if |blocks| < MAX_SACK_BLOCKS {
      assert s[..i] == s;
      blocks := blocks + [block];
    }
  }

  method BuildSackBlocks(outOfOrder: map<uint32, bytes>, ghost base: uint32) returns (blocks: seq<SackBlock>)
    requires InHalfCircle(outOfOrder.Keys, base)
    ensures blocks == SackBlocks(outOfOrder.Keys, base)
  {
    if |outOfOrder| == 0 {
      assert outOfOrder.Keys == {};
      return [];
    }
    var seqs := CollectKeys(outOfOrder);
    forall i | 0 <= i < seqs.Length ensures Sub(seqs[..][i], base) < 0x8000_0000 {
      assert seqs[..][i] in multiset(seqs[..]);
    }
    InsertionSort(seqs, base);
    SortedDistinct(seqs[..], outOfOrder.Keys, base);
    SortedIsAscending(outOfOrder.Keys, base);
    AscendingUnique(seqs[..], Sorted(outOfOrder.Keys, base), base);
    assert |multiset(seqs[..])| == |outOfOrder.Keys|;
    blocks := CutRuns(seqs);
  }
}
