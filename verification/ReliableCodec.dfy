/** The wire format of the reliable transport (pkg/tunnel/reliable.go:13-216). */
module ReliableCodec {
  import opened SeqNum
  import opened Bytes

  const FLAG_DATA: byte := 0x01
  const FLAG_ACK: byte := 0x02
  const FLAG_CLOSE: byte := 0x04
  const FLAG_SACK: byte := 0x10
  const RELIABLE_HEADER_SIZE := 9
  const RELIABLE_HEADER_WITH_ACK := 13
  const MAX_SACK_BLOCKS := 4

  /** A run of received out-of-order sequence numbers; both ends are inclusive. */
  datatype SackBlock = SackBlock(left: uint32, right: uint32)

  datatype ReliablePacket = ReliablePacket(
    streamID: uint32,
    flags: byte,
    seqNo: uint32,
    ack: uint32,
    sackBlocks: seq<SackBlock>,
    data: bytes)
  {
    predicate HasData() { flags % 2 == 1 }
    predicate HasAck() { flags / 2 % 2 == 1 }
    predicate HasClose() { flags / 4 % 2 == 1 }
    predicate HasSack() { flags / 16 % 2 == 1 }

    function HeaderSize(): (size: nat)
      ensures size == |Header(this)|
    {
      (if HasAck() then RELIABLE_HEADER_WITH_ACK else RELIABLE_HEADER_SIZE) +
      (if HasSack() then 1 + |sackBlocks| * 8 else 0)
    }
  }

  datatype ParseResult = Parsed(pkt: ReliablePacket) | TooShort

  // ---- The format as a function ------------------------------------------------------------

  function PutBlocks(blocks: seq<SackBlock>): (b: bytes)
    ensures |b| == 8 * |blocks|
  {
    if blocks == [] then []
    else PutBlocks(blocks[..|blocks| - 1]) + Put32(blocks[|blocks| - 1].left) + Put32(blocks[|blocks| - 1].right)
  }

  function FixedHeader(p: ReliablePacket): (b: bytes)
    ensures |b| == RELIABLE_HEADER_SIZE
  {
    Put32(p.streamID) + [p.flags] + Put32(p.seqNo)
  }

  function AckField(p: ReliablePacket): bytes {
    if p.HasAck() then Put32(p.ack) else []
  }

  /** The count byte is uint8(len(SackBlocks)), hence truncated. */
  function SackField(p: ReliablePacket): bytes {
    if p.HasSack() then [|p.sackBlocks| % 256] + PutBlocks(p.sackBlocks) else []
  }

  function Header(p: ReliablePacket): bytes {
    FixedHeader(p) + AckField(p) + SackField(p)
  }

  function Encode(p: ReliablePacket): bytes {
    Header(p) + p.data
  }

  function GetBlocks(b: bytes, n: nat): (blocks: seq<SackBlock>)
    requires 8 * n <= |b|
    ensures |blocks| == n
  {
    if n == 0 then []
    else GetBlocks(b, n - 1) + [SackBlock(Get32(b[8 * n - 8..8 * n - 4]), Get32(b[8 * n - 4..8 * n]))]
  }

  /** What the parser makes of the bytes after the ACK field: the SACK blocks, then the data. */
  function DecodeTail(p: ReliablePacket, rest: bytes): ParseResult {
    if !p.HasSack() then Parsed(p.(data := rest))
    else if |rest| < 1 then TooShort
    else
      var count := if rest[0] > MAX_SACK_BLOCKS then MAX_SACK_BLOCKS else rest[0];
      if |rest| < 1 + 8 * count then TooShort
      else Parsed(p.(sackBlocks := GetBlocks(rest[1..], count), data := rest[1 + 8 * count..]))
  }

  function Decode(b: bytes): ParseResult {
    if |b| < RELIABLE_HEADER_SIZE then TooShort
    else
      var p := ReliablePacket(Get32(b[0..4]), b[4], Get32(b[5..9]), 0, [], []);
      if !p.HasAck() then DecodeTail(p, b[9..])
      else if |b| < RELIABLE_HEADER_WITH_ACK then TooShort
      else DecodeTail(p.(ack := Get32(b[9..13])), b[13..])
  }

  // ---- Round trips ---------------------------------------------------------------------------

  /** Packets whose optional parts agree with their flags and whose block count fits the parser. */
  predicate WellFormed(p: ReliablePacket) {
    && |p.sackBlocks| <= MAX_SACK_BLOCKS
    && (!p.HasAck() ==> p.ack == 0)
    && (!p.HasSack() ==> p.sackBlocks == [])
  }

  lemma BlockAt(front: bytes, left: bytes, right: bytes, rest: bytes)
    requires |left| == |right| == 4
    ensures var b := front + left + right + rest;
            && b == front + (left + right + rest)
            && b[|front|..|front| + 4] == left && b[|front| + 4..|front| + 8] == right
  {
  }

  lemma {:induction false} GetPutBlocks(blocks: seq<SackBlock>, rest: bytes)
    ensures GetBlocks(PutBlocks(blocks) + rest, |blocks|) == blocks
  {
    hide Put32, Get32;
    if blocks != [] {
      var n := |blocks|;
      var init, last := blocks[..n - 1], blocks[n - 1];
      var tail := Put32(last.left) + Put32(last.right) + rest;
      BlockAt(PutBlocks(init), Put32(last.left), Put32(last.right), rest);
      GetPutBlocks(init, tail);
      GetPut32(last.left);
      GetPut32(last.right);
    }
  }

  lemma SliceJoin(b: bytes, i: nat, j: nat, k: nat)
    requires i <= j <= k <= |b|
    ensures b[..i] + b[i..j] + b[j..k] == b[..k]
  {
  }

  lemma {:induction false} PutGetBlocks(b: bytes, n: nat)
    requires 8 * n <= |b|
    ensures PutBlocks(GetBlocks(b, n)) == b[..8 * n]
  {
    hide Put32, Get32;
    if n > 0 {
      PutGetBlocks(b, n - 1);
      var blocks := GetBlocks(b, n);
      assert blocks[..n - 1] == GetBlocks(b, n - 1);
      PutGet32(b[8 * n - 8..8 * n - 4]);
      PutGet32(b[8 * n - 4..8 * n]);
      SliceJoin(b, 8 * n - 8, 8 * n - 4, 8 * n);
    }
  }

  lemma DecodeHeader(p: ReliablePacket, rest: bytes)
    ensures Decode(FixedHeader(p) + AckField(p) + rest)
         == DecodeTail(p.(ack := if p.HasAck() then p.ack else 0, sackBlocks := [], data := []), rest)
  {
    var b := FixedHeader(p) + AckField(p) + rest;
    assert b[0..4] == Put32(p.streamID);
    assert b[5..9] == Put32(p.seqNo);
    GetPut32(p.streamID);
    GetPut32(p.seqNo);
    if p.HasAck() {
      assert b[9..13] == Put32(p.ack);
      GetPut32(p.ack);
      assert b[13..] == rest;
    } else {
      assert b[9..] == rest;
    }
  }

  lemma TailParts(count: byte, blocks: bytes, data: bytes)
    ensures var rest := [count] + blocks + data;
            rest[0] == count && rest[1..] == blocks + data && rest[1 + |blocks|..] == data
  {
  }

  lemma DecodeTailRoundTrip(p: ReliablePacket)
    requires WellFormed(p)
    ensures DecodeTail(p.(sackBlocks := [], data := []), SackField(p) + p.data) == Parsed(p)
  {
    hide PutBlocks, GetBlocks;
    if p.HasSack() {
      TailParts(|p.sackBlocks|, PutBlocks(p.sackBlocks), p.data);
      GetPutBlocks(p.sackBlocks, p.data);
    } else {
      assert SackField(p) + p.data == p.data;
    }
  }

  lemma DecodeTailShape(p: ReliablePacket, rest: bytes)
    requires p.sackBlocks == []
    requires DecodeTail(p, rest).Parsed?
    ensures var q := DecodeTail(p, rest).pkt;
            q == p.(sackBlocks := q.sackBlocks, data := q.data) && |q.sackBlocks| <= MAX_SACK_BLOCKS &&
            (!q.HasSack() ==> q.sackBlocks == [])
  {
  }

  lemma DecodeShape(b: bytes)
    requires Decode(b).Parsed?
    ensures WellFormed(Decode(b).pkt)
  {
    var p := ReliablePacket(Get32(b[0..4]), b[4], Get32(b[5..9]), 0, [], []);
    if p.HasAck() {
      DecodeTailShape(p.(ack := Get32(b[9..13])), b[13..]);
    } else {
      DecodeTailShape(p, b[9..]);
    }
  }

  /** The parser inverts the serializer on well-formed packets, and on no others. */
  lemma RoundTrip(p: ReliablePacket)
    ensures Decode(Encode(p)) == Parsed(p) <==> WellFormed(p)
  {
    if WellFormed(p) {
      assert Encode(p) == FixedHeader(p) + AckField(p) + (SackField(p) + p.data);
      DecodeHeader(p, SackField(p) + p.data);
      DecodeTailRoundTrip(p);
      assert p.(ack := if p.HasAck() then p.ack else 0, sackBlocks := [], data := []) ==
        p.(sackBlocks := [], data := []);
    } else if Decode(Encode(p)) == Parsed(p) {
      DecodeShape(Encode(p));
    }
  }

  /** Where the SACK count byte of an input is, when the flags announce one. */
  function SackCountAt(b: bytes): nat
    requires |b| >= RELIABLE_HEADER_SIZE
  {
    if b[4] / 2 % 2 == 1 then RELIABLE_HEADER_WITH_ACK else RELIABLE_HEADER_SIZE
  }

  lemma Rejoin(count: byte, rest: bytes, n: nat)
    requires |rest| >= 1 + n
    ensures [count] + rest[1..][..n] + rest[1 + n..] == [count] + rest[1..]
  {
    assert rest[1..] == rest[1..][..n] + rest[1 + n..];
  }

  lemma SackFieldReencoded(q: ReliablePacket, rest: bytes, count: nat)
    requires q.HasSack() && |rest| >= 1 + 8 * count && count < 256
    requires q.sackBlocks == GetBlocks(rest[1..], count) && q.data == rest[1 + 8 * count..]
    ensures SackField(q) + q.data == [count] + rest[1..]
  {
    hide Put32, Get32, PutBlocks, GetBlocks;
    PutGetBlocks(rest[1..], count);
    Rejoin(count, rest, 8 * count);
  }

  lemma TailReencoded(p: ReliablePacket, rest: bytes)
    requires DecodeTail(p, rest).Parsed? && p.sackBlocks == []
    ensures var q := DecodeTail(p, rest).pkt;
            SackField(q) + q.data == rest <==> (q.HasSack() ==> rest[0] <= MAX_SACK_BLOCKS)
  {
    var q := DecodeTail(p, rest).pkt;
    if p.HasSack() {
      var count := if rest[0] > MAX_SACK_BLOCKS then MAX_SACK_BLOCKS else rest[0];
      SackFieldReencoded(q, rest, count);
      assert rest == [rest[0]] + rest[1..];
      assert ([count] + rest[1..])[0] == count;
    } else {
      assert SackField(q) + q.data == rest;
    }
  }

  lemma FixedHeaderReencoded(p: ReliablePacket, b: bytes)
    requires |b| >= 9 && p.streamID == Get32(b[0..4]) && p.flags == b[4] && p.seqNo == Get32(b[5..9])
    ensures FixedHeader(p) == b[..9]
  {
    PutGet32(b[0..4]);
    PutGet32(b[5..9]);
    assert b[..9] == b[0..4] + [b[4]] + b[5..9];
  }

  lemma HeaderReencoded(p: ReliablePacket, b: bytes)
    requires |b| >= 9 && p.streamID == Get32(b[0..4]) && p.flags == b[4] && p.seqNo == Get32(b[5..9])
    requires p.HasAck() ==> |b| >= 13 && p.ack == Get32(b[9..13])
    ensures FixedHeader(p) + AckField(p) == b[..SackCountAt(b)]
  {
    FixedHeaderReencoded(p, b);
    if p.HasAck() {
      PutGet32(b[9..13]);
      assert b[..13] == b[..9] + b[9..13];
    }
  }

  /** The parser reads the fixed part, then the rest from where the count byte would be. */
  lemma DecodeSplits(b: bytes)
    requires Decode(b).Parsed?
    ensures |b| >= SackCountAt(b)
    ensures var q := Decode(b).pkt;
            && FixedHeader(q) + AckField(q) == b[..SackCountAt(b)]
            && (q.HasSack() ==> |b[SackCountAt(b)..]| > 0)
            && (SackField(q) + q.data == b[SackCountAt(b)..]
                <==> (q.HasSack() ==> b[SackCountAt(b)..][0] <= MAX_SACK_BLOCKS))
  {
    hide Get32;
    var p := ReliablePacket(Get32(b[0..4]), b[4], Get32(b[5..9]),
               if b[4] / 2 % 2 == 1 then Get32(b[9..13]) else 0, [], []);
    assert Decode(b) == DecodeTail(p, b[SackCountAt(b)..]);
    DecodeTailShape(p, b[SackCountAt(b)..]);
    TailReencoded(p, b[SackCountAt(b)..]);
    HeaderReencoded(Decode(b).pkt, b);
  }

  lemma SplitCompare(b: bytes, at: nat, tail: bytes)
    requires at <= |b|
    ensures b[..at] + tail == b <==> tail == b[at..]
  {
    assert b == b[..at] + b[at..];
    assert (b[..at] + tail)[at..] == tail;
  }

  lemma Regroup(a: bytes, b: bytes, c: bytes)
    ensures a + b + c == a + (b + c)
  {
  }

  /** Re-serializing what was parsed gives the input back exactly when the count byte, if there
      is one, was not clamped. */
  lemma ParsedRoundTrip(b: bytes)
    requires Decode(b).Parsed?
    ensures Encode(Decode(b).pkt) == b
       <==> (Decode(b).pkt.HasSack() ==> b[SackCountAt(b)..][0] <= MAX_SACK_BLOCKS)
  {
    assert |b| >= RELIABLE_HEADER_SIZE;
    hide Decode, SackField, AckField, FixedHeader;
    var at := SackCountAt(b);
    var q := Decode(b).pkt;
    DecodeSplits(b);
    Regroup(FixedHeader(q) + AckField(q), SackField(q), q.data);
    SplitCompare(b, at, SackField(q) + q.data);
  }

  // ---- The serializer and the parsers --------------------------------------------------------

  method MarshalBlock(block: SackBlock, buf: array<byte>, at: nat)
    requires at + 8 <= buf.Length
    modifies buf
    ensures buf[..] == old(buf[..at]) + (Put32(block.left) + Put32(block.right)) + old(buf[at + 8..])
  {
    hide Put32;
    ghost var was := buf[..];
    PutUint32(buf, at, block.left);
    ghost var before := buf[..];
    PutUint32(buf, at + 4, block.right);
    WriteNext(was[..at] + Put32(block.left), Put32(block.right), was, before, buf[..]);
    Regroup(was[..at], Put32(block.left), Put32(block.right));
  }

  lemma PutBlocksSnoc(blocks: seq<SackBlock>, i: nat, front: bytes)
    requires i < |blocks|
    ensures front + PutBlocks(blocks[..i]) + (Put32(blocks[i].left) + Put32(blocks[i].right)) ==
            front + PutBlocks(blocks[..i + 1])
  {
    hide Put32;
    assert blocks[..i + 1][..i] == blocks[..i];
    var p, l, r := PutBlocks(blocks[..i]), Put32(blocks[i].left), Put32(blocks[i].right);
    Regroup(p, l, r);
    Regroup(front, p, l + r);
  }

  method MarshalBlocks(blocks: seq<SackBlock>, buf: array<byte>, at: nat)
    requires at + 8 * |blocks| <= buf.Length
    modifies buf
    ensures buf[..] == old(buf[..at]) + PutBlocks(blocks) + old(buf[at + 8 * |blocks|..])
  {
    hide Put32;
    ghost var was := buf[..];
    assert blocks[..0] == [];
    assert was == was[..at] + PutBlocks([]) + was[at..];
    hide PutBlocks;
    var offset := at;
    for i := 0 to |blocks|
      invariant offset == at + 8 * i
      invariant buf[..] == was[..at] + PutBlocks(blocks[..i]) + was[offset..]
    {
      ghost var before := buf[..];
      MarshalBlock(blocks[i], buf, offset);
      WriteNext(was[..at] + PutBlocks(blocks[..i]), Put32(blocks[i].left) + Put32(blocks[i].right),
        was, before, buf[..]);
      PutBlocksSnoc(blocks, i, was[..at]);
      offset := offset + 8;
    }
    assert blocks[..|blocks|] == blocks;
  }

  method MarshalFixed(p: ReliablePacket, buf: array<byte>)
    requires RELIABLE_HEADER_SIZE <= buf.Length
    modifies buf
    ensures buf[..] == FixedHeader(p) + old(buf[9..])
  {
    hide Put32;
    ghost var was := buf[..];
    PutUint32(buf, 0, p.streamID);
    assert buf[..] == Put32(p.streamID) + was[4..];
    buf[4] := p.flags;
    assert buf[..] == Put32(p.streamID) + [p.flags] + was[5..];
    PutUint32(buf, 5, p.seqNo);
  }

  method MarshalSack(p: ReliablePacket, buf: array<byte>, at: nat)
    requires p.HasSack() && at + 1 + 8 * |p.sackBlocks| <= buf.Length
    modifies buf
    ensures buf[..] == old(buf[..at]) + SackField(p) + old(buf[at + 1 + 8 * |p.sackBlocks|..])
  {
    hide PutBlocks;
    ghost var was := buf[..];
    buf[at] := |p.sackBlocks| % 256;
    ghost var before := buf[..];
    assert before == was[..at] + [|p.sackBlocks| % 256] + was[at + 1..];
    MarshalBlocks(p.sackBlocks, buf, at + 1);
    WriteNext(was[..at] + [|p.sackBlocks| % 256], PutBlocks(p.sackBlocks), was, before, buf[..]);
    Regroup(was[..at], [|p.sackBlocks| % 256], PutBlocks(p.sackBlocks));
  }

  method MarshalAck(p: ReliablePacket, buf: array<byte>) returns (offset: nat)
    requires buf.Length >= p.HeaderSize()
    modifies buf
    ensures offset == |FixedHeader(p) + AckField(p)|
    ensures buf[..] == FixedHeader(p) + AckField(p) + old(buf[offset..])
  {
    hide Put32, FixedHeader;
    ghost var was := buf[..];
    MarshalFixed(p, buf);
    offset := 9;
    if p.HasAck() {
      ghost var before := buf[..];
      PutUint32(buf, 9, p.ack);
      WriteNext(FixedHeader(p), Put32(p.ack), was, before, buf[..]);
      offset := 13;
    }
  }

  method MarshalHeader(p: ReliablePacket, buf: array<byte>) returns (offset: nat)
    requires buf.Length >= p.HeaderSize()
    modifies buf
    ensures offset == |Header(p)|
    ensures buf[..] == Header(p) + old(buf[offset..])
  {
    hide AckField, FixedHeader, PutBlocks;
    ghost var was := buf[..];
    offset := MarshalAck(p, buf);
    if p.HasSack() {
      ghost var before := buf[..];
      MarshalSack(p, buf, offset);
      WriteNext(FixedHeader(p) + AckField(p), SackField(p), was, before, buf[..]);
      offset := offset + 1 + 8 * |p.sackBlocks|;
    }
  }

  method MarshalTo(p: ReliablePacket, buf: array<byte>) returns (n: nat)
    requires |Encode(p)| <= buf.Length
    modifies buf
    ensures n == |Encode(p)|
    ensures buf[..] == Encode(p) + old(buf[n..])
  {
    hide Header;
    ghost var was := buf[..];
    var offset := MarshalHeader(p, buf);
    if |p.data| > 0 {
      ghost var before := buf[..];
      CopyInto(buf, offset, p.data);
      WriteNext(Header(p), p.data, was, before, buf[..]);
    }
    n := offset + |p.data|;
  }

  method Marshal(p: ReliablePacket) returns (b: bytes)
    ensures b == Encode(p)
  {
    var buf := new byte[p.HeaderSize() + |p.data|];
    var n := MarshalTo(p, buf);
    b := buf[..];
  }

  method ParseBlocks(data: array<byte>, start: nat, count: nat) returns (blocks: seq<SackBlock>)
    requires start + 8 * count <= data.Length
    ensures blocks == GetBlocks(data[start..], count)
  {
    hide Get32;
    ghost var body := data[start..];
    var offset := start;
    blocks := [];
    for i := 0 to count
      invariant offset == start + 8 * i
      invariant blocks == GetBlocks(body, i)
    {
      assert body[8 * i..8 * i + 4] == data[offset..offset + 4];
      assert body[8 * i + 4..8 * i + 8] == data[offset + 4..offset + 8];
      blocks := blocks + [SackBlock(Get32(data[offset..offset + 4]), Get32(data[offset + 4..offset + 8]))];
      offset := offset + 8;
    }
  }

  /** The count byte and the blocks, read from `start` on. */
  method ParseSack(p: ReliablePacket, data: array<byte>, start: nat) returns (r: ParseResult, at: nat)
    requires p.HasSack() && p.sackBlocks == [] && p.data == [] && start <= data.Length
    ensures r.TooShort? <==> DecodeTail(p, data[start..]).TooShort?
    ensures r.Parsed? ==> at <= data.Length && r.pkt.data == [] &&
                          DecodeTail(p, data[start..]) == Parsed(r.pkt.(data := data[at..]))
  {
    hide GetBlocks;
    if data.Length < start + 1 {
      return TooShort, 0;
    }
    var count := data[start] as int;
    var offset := start + 1;
    if count > MAX_SACK_BLOCKS {
      count := MAX_SACK_BLOCKS;
    }
    if data.Length < offset + count * 8 {
      return TooShort, 0;
    }
    var blocks := ParseBlocks(data, offset, count);
    ghost var rest := data[start..];
    assert rest[0] == data[start];
    assert rest[1..] == data[offset..];
    assert rest[1 + 8 * count..] == data[offset + 8 * count..];
    return Parsed(p.(sackBlocks := blocks)), offset + 8 * count;
  }

  /** The header part shared by both parsers; `at` is where the data starts. */
  method ParseHeader(data: array<byte>) returns (r: ParseResult, at: nat)
    ensures r.TooShort? <==> Decode(data[..]).TooShort?
    ensures r.Parsed? ==> at <= data.Length && r.pkt.data == [] &&
                          Decode(data[..]) == Parsed(r.pkt.(data := data[at..]))
  {
    if data.Length < RELIABLE_HEADER_SIZE {
      return TooShort, 0;
    }
    ghost var b := data[..];
    var p := ReliablePacket(Get32(data[0..4]), data[4], Get32(data[5..9]), 0, [], []);
    assert b[0..4] == data[0..4] && b[5..9] == data[5..9];
    var offset := 9;
    if p.HasAck() {
      if data.Length < RELIABLE_HEADER_WITH_ACK {
        return TooShort, 0;
      }
      p := p.(ack := Get32(data[9..13]));
      assert b[9..13] == data[9..13];
      offset := 13;
    }
    assert b[offset..] == data[offset..];
    assert Decode(b) == DecodeTail(p, data[offset..]);
    if p.HasSack() {
      r, at := ParseSack(p, data, offset);
    } else {
      r, at := Parsed(p), offset;
    }
  }

  /** The copying parser: the payload is copied byte by byte into a buffer of its own. */
  method UnmarshalReliable(data: array<byte>) returns (r: ParseResult)
    ensures r == Decode(data[..])
  {
    var at;
    r, at := ParseHeader(data);
    if r.Parsed? && data.Length > at {
      var copied := new byte[data.Length - at];
      var i := 0;
      while i < copied.Length
        invariant 0 <= i <= copied.Length == data.Length - at
        invariant copied[..i] == data[at..at + i]
      {
        copied[i] := data[at + i];
        i := i + 1;
      }
      assert copied[..] == copied[..i] == data[at..at + i] == data[at..];
      r := Parsed(r.pkt.(data := copied[..]));
    }
  }

  /** The aliasing parser: the payload is a slice of the input. */
  method UnmarshalReliableNoCopy(data: array<byte>) returns (r: ParseResult)
    ensures r == Decode(data[..])
  {
    var at;
    r, at := ParseHeader(data);
    if r.Parsed? && data.Length > at {
      r := Parsed(r.pkt.(data := data[at..]));
    }
  }

  // ---- Size ----------------------------------------------------------------------------------

  /** No header exceeds 46 bytes when there are at most four SACK blocks. */
  lemma HeaderBound(p: ReliablePacket)
    requires |p.sackBlocks| <= MAX_SACK_BLOCKS
    ensures RELIABLE_HEADER_SIZE <= p.HeaderSize() <= 46
    ensures |Encode(p)| == p.HeaderSize() + |p.data|
  {
  }

  // ---- Layout --------------------------------------------------------------------------------

  lemma {:induction false} BlocksLayout(blocks: seq<SackBlock>, i: nat)
    requires i < |blocks|
    ensures NumberAt(PutBlocks(blocks), 8 * i, 4) == blocks[i].left
    ensures NumberAt(PutBlocks(blocks), 8 * i + 4, 4) == blocks[i].right
  {
    var n := |blocks|;
    var init, last := blocks[..n - 1], blocks[n - 1];
    hide Put32, NumberAt;
    if i == n - 1 {
      BigEndian(0, last.left);
      BigEndian(0, last.right);
      NumberInside(PutBlocks(init), Put32(last.left), Put32(last.right), 4);
      assert PutBlocks(init) + Put32(last.left) + Put32(last.right) + [] == PutBlocks(blocks);
      NumberInside(PutBlocks(init) + Put32(last.left), Put32(last.right), [], 4);
    } else {
      BlocksLayout(init, i);
      var tail := Put32(last.left) + Put32(last.right);
      assert PutBlocks(blocks) == PutBlocks(init) + tail;
      NumberBefore(PutBlocks(init), tail, 8 * i, 4);
      NumberBefore(PutBlocks(init), tail, 8 * i + 4, 4);
    }
  }

  /** What comes after does not matter, and what comes before only shifts. */
  lemma {:induction false} NumberBefore(b: bytes, rest: bytes, at: nat, n: nat)
    requires at + n <= |b|
    ensures NumberAt(b + rest, at, n) == NumberAt(b, at, n)
  {
    if n > 0 {
      NumberBefore(b, rest, at, n - 1);
    }
  }

  lemma {:induction false} NumberShifted(front: bytes, b: bytes, at: nat, n: nat)
    requires at + n <= |b|
    ensures NumberAt(front + b, |front| + at, n) == NumberAt(b, at, n)
  {
    if n > 0 {
      NumberShifted(front, b, at, n - 1);
    }
  }

  lemma FixedLayout(p: ReliablePacket, rest: bytes)
    ensures var b := FixedHeader(p) + rest;
            NumberAt(b, 0, 4) == p.streamID && b[4] == p.flags && NumberAt(b, 5, 4) == p.seqNo
  {
    hide Put32, NumberAt;
    BigEndian(0, p.streamID);
    BigEndian(0, p.seqNo);
    assert FixedHeader(p) + rest == [] + Put32(p.streamID) + ([p.flags] + Put32(p.seqNo) + rest);
    NumberInside([], Put32(p.streamID), [p.flags] + Put32(p.seqNo) + rest, 4);
    NumberInside(Put32(p.streamID) + [p.flags], Put32(p.seqNo), rest, 4);
  }

  lemma AckLayout(p: ReliablePacket, rest: bytes)
    requires p.HasAck()
    ensures NumberAt(FixedHeader(p) + AckField(p) + rest, 9, 4) == p.ack
  {
    hide Put32, NumberAt;
    BigEndian(0, p.ack);
    NumberInside(FixedHeader(p), Put32(p.ack), rest, 4);
  }

  lemma SackLayout(p: ReliablePacket, front: bytes, i: nat)
    requires p.HasSack() && i < |p.sackBlocks|
    ensures var b := front + SackField(p) + p.data;
            && NumberAt(b, |front| + 1 + 8 * i, 4) == p.sackBlocks[i].left
            && NumberAt(b, |front| + 5 + 8 * i, 4) == p.sackBlocks[i].right
  {
    hide PutBlocks, NumberAt;
    BlocksLayout(p.sackBlocks, i);
    var blocks := PutBlocks(p.sackBlocks);
    var before := front + [|p.sackBlocks| % 256];
    assert front + SackField(p) + p.data == before + blocks + p.data == before + (blocks + p.data);
    NumberBefore(blocks, p.data, 8 * i, 4);
    NumberBefore(blocks, p.data, 8 * i + 4, 4);
    NumberShifted(before, blocks + p.data, 8 * i, 4);
    NumberShifted(before, blocks + p.data, 8 * i + 4, 4);
  }

  /** Every byte of a packet: stream, flags, sequence number; with bit 1 of the flags the acknowledgment
      number; with bit 4 the number of blocks and the blocks, left end first; then the data. Bits 0 and
      2 say that there is data and that the stream closes. All numbers are big-endian. */
  lemma WireLayout(p: ReliablePacket)
    ensures var b := Encode(p);
            var at := if p.flags / 2 % 2 == 1 then 13 else 9;
            && |b| >= at && NumberAt(b, 0, 4) == p.streamID && b[4] == p.flags && NumberAt(b, 5, 4) == p.seqNo
            && (p.flags / 2 % 2 == 1 ==> NumberAt(b, 9, 4) == p.ack)
            && (p.flags / 16 % 2 == 0 ==> b[at..] == p.data)
            && (p.flags / 16 % 2 == 1 ==>
                 var n := |p.sackBlocks|;
                 && |b| == at + 1 + 8 * n + |p.data|
                 && b[at] == n % 256 && b[at + 1 + 8 * n..] == p.data
                 && forall i :: 0 <= i < n ==>
                      && NumberAt(b, at + 1 + 8 * i, 4) == p.sackBlocks[i].left
                      && NumberAt(b, at + 5 + 8 * i, 4) == p.sackBlocks[i].right)
    ensures (p.HasData() <==> p.flags % 2 == 1) && (p.HasClose() <==> p.flags / 4 % 2 == 1)
  {
    hide Put32, NumberAt, PutBlocks, FixedHeader;
    var front := FixedHeader(p) + AckField(p);
    assert Encode(p) == front + SackField(p) + p.data == front + (SackField(p) + p.data);
    assert Encode(p) == FixedHeader(p) + (AckField(p) + SackField(p) + p.data);
    FixedLayout(p, AckField(p) + SackField(p) + p.data);
    if p.HasAck() {
      AckLayout(p, SackField(p) + p.data);
    }
    if p.HasSack() {
      forall i | 0 <= i < |p.sackBlocks|
        ensures NumberAt(Encode(p), |front| + 1 + 8 * i, 4) == p.sackBlocks[i].left
        ensures NumberAt(Encode(p), |front| + 5 + 8 * i, 4) == p.sackBlocks[i].right
      {
        SackLayout(p, front, i);
      }
    }
  }
}
