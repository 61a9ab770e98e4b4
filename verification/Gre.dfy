/** GRE encapsulation (pkg/gre/gre.go:12-193): RFC 2784 section 2 with the key and sequence
    number fields of RFC 2890 section 2. */
module Gre {
  import opened SeqNum
  import opened Bytes

  const MIN_HEADER_SIZE := 4
  const ETHER_TYPE_TRANSPARENT_ETHERNET: uint16 := 0x6558
  const FLAG_KEY: uint16 := 0x2000

  datatype Header = Header(
    flags: uint16,
    protocolType: uint16,
    checksum: uint16,
    reserved1: uint16,
    key: uint32,
    sequence: uint32)
  {
    predicate HasChecksum() { flags / 0x8000 == 1 }
    predicate HasKey() { flags / 0x2000 % 2 == 1 }
    predicate HasSequence() { flags / 0x1000 % 2 == 1 }
    predicate VersionZero() { flags % 8 == 0 }

    /** The header size accumulates four bytes per optional field. */
    function HeaderSize(): (size: nat)
      ensures size == |EncodeHeader(this)|
    {
      MIN_HEADER_SIZE
      + (if HasChecksum() then 4 else 0)
      + (if HasKey() then 4 else 0)
      + (if HasSequence() then 4 else 0)
    }
  }

  datatype Packet = Packet(header: Header, payload: bytes)

  datatype GreError = PacketTooShort | InvalidVersion
  datatype HeaderResult = HeaderAt(header: Header, offset: nat) | HeaderError(error: GreError)
  datatype PacketResult = ParsedPacket(pkt: Packet) | PacketError(error: GreError)

  // ---- The format as a function ------------------------------------------------------------

  function ChecksumField(h: Header): bytes {
    if h.HasChecksum() then Put16(h.checksum) + Put16(h.reserved1) else []
  }

  function KeyField(h: Header): bytes {
    if h.HasKey() then Put32(h.key) else []
  }

  function SequenceField(h: Header): bytes {
    if h.HasSequence() then Put32(h.sequence) else []
  }

  function EncodeHeader(h: Header): bytes {
    Put16(h.flags) + Put16(h.protocolType) + ChecksumField(h) + KeyField(h) + SequenceField(h)
  }

  function EncodePacket(p: Packet): bytes {
    EncodeHeader(p.header) + p.payload
  }

  function DecodeChecksum(h: Header, b: bytes, at: nat): HeaderResult
    requires at <= |b|
  {
    if !h.HasChecksum() then HeaderAt(h, at)
    else if |b| < at + 4 then HeaderError(PacketTooShort)
    else HeaderAt(h.(checksum := Get16(b[at..at + 2]), reserved1 := Get16(b[at + 2..at + 4])), at + 4)
  }

  function DecodeKey(h: Header, b: bytes, at: nat): HeaderResult
    requires at <= |b|
  {
    if !h.HasKey() then HeaderAt(h, at)
    else if |b| < at + 4 then HeaderError(PacketTooShort)
    else HeaderAt(h.(key := Get32(b[at..at + 4])), at + 4)
  }

  function DecodeSequence(h: Header, b: bytes, at: nat): HeaderResult
    requires at <= |b|
  {
    if !h.HasSequence() then HeaderAt(h, at)
    else if |b| < at + 4 then HeaderError(PacketTooShort)
    else HeaderAt(h.(sequence := Get32(b[at..at + 4])), at + 4)
  }

  function DecodeHeader(b: bytes): (r: HeaderResult)
    ensures r.HeaderAt? ==> MIN_HEADER_SIZE <= r.offset <= |b| && r.header.VersionZero()
  {
    if |b| < MIN_HEADER_SIZE then HeaderError(PacketTooShort)
    else
      var h := Header(Get16(b[0..2]), Get16(b[2..4]), 0, 0, 0, 0);
      if !h.VersionZero() then HeaderError(InvalidVersion)
      else
        var c := DecodeChecksum(h, b, 4);
        if c.HeaderError? then c
        else
          var k := DecodeKey(c.header, b, c.offset);
          if k.HeaderError? then k
          else DecodeSequence(k.header, b, k.offset)
  }

  function DecodePacket(b: bytes): PacketResult {
    var r := DecodeHeader(b);
    if r.HeaderError? then PacketError(r.error)
    else ParsedPacket(Packet(r.header, b[r.offset..]))
  }

  // ---- Round trip ----------------------------------------------------------------------------

  /** Version 0, and absent optional fields zero. */
  predicate WellFormed(h: Header) {
    && h.VersionZero()
    && (!h.HasChecksum() ==> h.checksum == 0 && h.reserved1 == 0)
    && (!h.HasKey() ==> h.key == 0)
    && (!h.HasSequence() ==> h.sequence == 0)
  }

  lemma ChecksumInverts(h: Header, front: bytes, rest: bytes)
    requires !h.HasChecksum() ==> h.checksum == 0 && h.reserved1 == 0
    ensures var c := DecodeChecksum(h.(checksum := 0, reserved1 := 0), front + ChecksumField(h) + rest, |front|);
            c == HeaderAt(h, |front| + |ChecksumField(h)|)
  {
    if h.HasChecksum() {
      hide Get16, Put16;
      var b := front + ChecksumField(h) + rest;
      assert b[|front|..|front| + 2] == Put16(h.checksum);
      assert b[|front| + 2..|front| + 4] == Put16(h.reserved1);
      GetPut16(h.checksum);
      GetPut16(h.reserved1);
    }
  }

  lemma KeyInverts(h: Header, front: bytes, rest: bytes)
    requires !h.HasKey() ==> h.key == 0
    ensures DecodeKey(h.(key := 0), front + KeyField(h) + rest, |front|) == HeaderAt(h, |front| + |KeyField(h)|)
  {
    if h.HasKey() {
      hide Get32, Put32;
      var b := front + KeyField(h) + rest;
      assert b[|front|..|front| + 4] == Put32(h.key);
      GetPut32(h.key);
    }
  }

  lemma SequenceInverts(h: Header, front: bytes, rest: bytes)
    requires !h.HasSequence() ==> h.sequence == 0
    ensures DecodeSequence(h.(sequence := 0), front + SequenceField(h) + rest, |front|)
         == HeaderAt(h, |front| + |SequenceField(h)|)
  {
    if h.HasSequence() {
      hide Get32, Put32;
      var b := front + SequenceField(h) + rest;
      assert b[|front|..|front| + 4] == Put32(h.sequence);
      GetPut32(h.sequence);
    }
  }

  lemma HeaderInverts(h: Header, payload: bytes)
    requires WellFormed(h)
    ensures DecodeHeader(EncodeHeader(h) + payload) == HeaderAt(h, |EncodeHeader(h)|)
  {
    hide Get32, Put32, Get16, Put16, ChecksumField, KeyField, SequenceField, DecodeChecksum, DecodeKey, DecodeSequence;
    var b := EncodeHeader(h) + payload;
    var f0 := Put16(h.flags) + Put16(h.protocolType);
    var f1 := f0 + ChecksumField(h);
    var f2 := f1 + KeyField(h);
    var tail2 := SequenceField(h) + payload;
    assert b[0..2] == Put16(h.flags) && b[2..4] == Put16(h.protocolType);
    GetPut16(h.flags);
    GetPut16(h.protocolType);
    assert b == f2 + SequenceField(h) + payload;
    assert b == f1 + KeyField(h) + tail2;
    assert b == f0 + ChecksumField(h) + (KeyField(h) + tail2);
    ChecksumInverts(h.(key := 0, sequence := 0), f0, KeyField(h) + tail2) by {
      assert ChecksumField(h.(key := 0, sequence := 0)) == ChecksumField(h) by { ChecksumFieldOf(h); }
    }
    ChecksumFieldOf(h);
    KeyInverts(h.(sequence := 0), f1, tail2);
    SequenceInverts(h, f2, payload);
  }

  lemma ChecksumFieldOf(h: Header)
    ensures ChecksumField(h.(key := 0, sequence := 0)) == ChecksumField(h)
    ensures KeyField(h.(sequence := 0)) == KeyField(h)
  {
  }

  /** The GRE parser inverts the serializer for every combination of the optional fields, and
      only on version-0 headers whose absent fields are zero. */
  lemma RoundTrip(p: Packet)
    ensures DecodePacket(EncodePacket(p)) == ParsedPacket(p) <==> WellFormed(p.header)
  {
    if WellFormed(p.header) {
      HeaderInverts(p.header, p.payload);
      assert EncodePacket(p)[|EncodeHeader(p.header)|..] == p.payload;
    } else if DecodePacket(EncodePacket(p)) == ParsedPacket(p) {
      DecodedIsWellFormed(EncodePacket(p));
      assert false;
    }
  }

  lemma DecodedIsWellFormed(b: bytes)
    ensures DecodeHeader(b).HeaderAt? ==> WellFormed(DecodeHeader(b).header)
  {
    hide Get32, Get16;
  }

  /** A header is refused for its version exactly when the last three bits of its second byte are set. */
  lemma VersionChecked(b: bytes)
    requires |b| >= 4
    ensures DecodeHeader(b) == HeaderError(InvalidVersion) <==> b[1] % 8 != 0
  {
    VersionOnlyHere(b);
    hide DecodeChecksum, DecodeKey, DecodeSequence;
    assert Get16(b[0..2]) == b[0] as int * 0x100 + b[1];
    assert Get16(b[0..2]) % 8 == b[1] % 8;
  }

  lemma VersionOnlyHere(b: bytes)
    requires |b| >= 4
    ensures forall h: Header, at: nat :: at <= |b| ==>
              && DecodeChecksum(h, b, at) != HeaderError(InvalidVersion)
              && DecodeKey(h, b, at) != HeaderError(InvalidVersion)
              && DecodeSequence(h, b, at) != HeaderError(InvalidVersion)
  {
  }

  // ---- The serializers and the parsers -------------------------------------------------------

  method MarshalHeader(h: Header) returns (b: bytes)
    ensures b == EncodeHeader(h)
  {
    hide Put32, Put16;
    var buf := new byte[h.HeaderSize()];
    MarshalHeaderTo(h, buf);
    b := buf[..];
  }

  /** The two adjacent 16-bit writes of the fixed part and of the checksum field. */
  method PutPair(buf: array<byte>, at: nat, x: uint16, y: uint16)
    requires at + 4 <= buf.Length
    modifies buf
    ensures buf[..] == old(buf[..at]) + Put16(x) + Put16(y) + old(buf[at + 4..])
  {
    hide Put16;
    ghost var was := buf[..];
    PutUint16(buf, at, x);
    assert buf[..] == was[..at] + Put16(x) + was[at + 2..];
    PutUint16(buf, at + 2, y);
  }

  method PutChecksum(h: Header, buf: array<byte>, at: nat) returns (offset: nat)
    requires at + |ChecksumField(h)| <= buf.Length
    modifies buf
    ensures offset == at + |ChecksumField(h)|
    ensures buf[..] == old(buf[..at]) + ChecksumField(h) + old(buf[offset..])
  {
    offset := at;
    if h.HasChecksum() {
      PutPair(buf, offset, h.checksum, h.reserved1);
      offset := offset + 4;
    }
  }

  method PutKey(h: Header, buf: array<byte>, at: nat) returns (offset: nat)
    requires at + |KeyField(h)| <= buf.Length
    modifies buf
    ensures offset == at + |KeyField(h)|
    ensures buf[..] == old(buf[..at]) + KeyField(h) + old(buf[offset..])
  {
    offset := at;
    if h.HasKey() {
      PutUint32(buf, offset, h.key);
      offset := offset + 4;
    }
  }

  method PutSequence(h: Header, buf: array<byte>, at: nat) returns (offset: nat)
    requires at + |SequenceField(h)| <= buf.Length
    modifies buf
    ensures offset == at + |SequenceField(h)|
    ensures buf[..] == old(buf[..at]) + SequenceField(h) + old(buf[offset..])
  {
    offset := at;
    if h.HasSequence() {
      PutUint32(buf, offset, h.sequence);
      offset := offset + 4;
    }
  }

  method PutRequired(h: Header, buf: array<byte>)
    requires 4 <= buf.Length
    modifies buf
    ensures buf[..] == Put16(h.flags) + Put16(h.protocolType) + old(buf[4..])
  {
    hide Put16;
    ghost var was := buf[..];
    PutPair(buf, 0, h.flags, h.protocolType);
    assert was[..0] + Put16(h.flags) == Put16(h.flags);
  }

  method PutRequiredAndChecksum(h: Header, buf: array<byte>) returns (offset: nat)
    requires 4 + |ChecksumField(h)| <= buf.Length
    modifies buf
    ensures offset == 4 + |ChecksumField(h)|
    ensures buf[..] == Put16(h.flags) + Put16(h.protocolType) + ChecksumField(h) + old(buf[offset..])
  {
    hide Put16, ChecksumField;
    ghost var was := buf[..];
    PutRequired(h, buf);
    ghost var before := buf[..];
    offset := PutChecksum(h, buf, 4);
    WriteNext(Put16(h.flags) + Put16(h.protocolType), ChecksumField(h), was, before, buf[..]);
  }

  /** The writes shared by Header.Marshal and Packet.MarshalTo. */
  method MarshalHeaderTo(h: Header, buf: array<byte>)
    requires |EncodeHeader(h)| <= buf.Length
    modifies buf
    ensures buf[..] == EncodeHeader(h) + old(buf[|EncodeHeader(h)|..])
  {
    hide Put16, ChecksumField, KeyField, SequenceField;
    ghost var was := buf[..];
    var offset := PutRequiredAndChecksum(h, buf);
    ghost var front, before := Put16(h.flags) + Put16(h.protocolType) + ChecksumField(h), buf[..];
    offset := PutKey(h, buf, offset);
    WriteNext(front, KeyField(h), was, before, buf[..]);
    before := buf[..];
    offset := PutSequence(h, buf, offset);
    WriteNext(front + KeyField(h), SequenceField(h), was, before, buf[..]);
  }

  function NewPacket(key: uint32, payload: bytes): Packet {
    Packet(Header(FLAG_KEY, ETHER_TYPE_TRANSPARENT_ETHERNET, 0, 0, key, 0), payload)
  }

  method MarshalPacket(p: Packet) returns (b: bytes)
    ensures b == EncodePacket(p)
  {
    var header := MarshalHeader(p.header);
    b := header + p.payload;
  }

  /** The zero-copy serializer writes the same bytes at the front of a buffer that is large enough. */
  method MarshalPacketTo(p: Packet, buf: array<byte>) returns (n: nat)
    requires |EncodePacket(p)| <= buf.Length
    modifies buf
    ensures n == |EncodePacket(p)|
    ensures buf[..] == EncodePacket(p) + old(buf[n..])
  {
    hide EncodeHeader;
    ghost var was := buf[..];
    var headerSize := p.header.HeaderSize();
    MarshalHeaderTo(p.header, buf);
    CopyInto(buf, headerSize, p.payload);
    n := headerSize + |p.payload|;
    assert buf[..] == EncodePacket(p) + was[n..];
  }

  method Unmarshal(data: array<byte>) returns (r: HeaderResult)
    ensures r == DecodeHeader(data[..])
  {
    hide Get32, Get16;
    if data.Length < MIN_HEADER_SIZE {
      return HeaderError(PacketTooShort);
    }
    ghost var b := data[..];
    assert b[0..2] == data[0..2] && b[2..4] == data[2..4];
    var h := Header(Get16(data[0..2]), Get16(data[2..4]), 0, 0, 0, 0);
    if !h.VersionZero() {
      return HeaderError(InvalidVersion);
    }
    var offset := 4;
    if h.HasChecksum() {
      if data.Length < offset + 4 {
        return HeaderError(PacketTooShort);
      }
      assert b[offset..offset + 2] == data[offset..offset + 2];
      assert b[offset + 2..offset + 4] == data[offset + 2..offset + 4];
      h := h.(checksum := Get16(data[offset..offset + 2]), reserved1 := Get16(data[offset + 2..offset + 4]));
      offset := offset + 4;
    }
    if h.HasKey() {
      if data.Length < offset + 4 {
        return HeaderError(PacketTooShort);
      }
      assert b[offset..offset + 4] == data[offset..offset + 4];
      h := h.(key := Get32(data[offset..offset + 4]));
      offset := offset + 4;
    }
    if h.HasSequence() {
      if data.Length < offset + 4 {
        return HeaderError(PacketTooShort);
      }
      assert b[offset..offset + 4] == data[offset..offset + 4];
      h := h.(sequence := Get32(data[offset..offset + 4]));
      offset := offset + 4;
    }
    return HeaderAt(h, offset);
  }

  method UnmarshalPacket(data: array<byte>) returns (r: PacketResult)
    ensures r == DecodePacket(data[..])
  {
    hide DecodeHeader;
    var h := Unmarshal(data);
    match h
    case HeaderError(e) => r := PacketError(e);
    case HeaderAt(header, offset) =>
      assert data[..][offset..] == data[offset..];
      r := ParsedPacket(Packet(header, data[offset..]));
  }

  // ---- Layout --------------------------------------------------------------------------------

  lemma FixedLayout(h: Header, rest: bytes)
    ensures var b := Put16(h.flags) + Put16(h.protocolType) + rest;
            NumberAt(b, 0, 2) == h.flags && NumberAt(b, 2, 2) == h.protocolType
  {
    hide Put16, NumberAt;
    BigEndian(h.flags, 0);
    BigEndian(h.protocolType, 0);
    assert Put16(h.flags) + Put16(h.protocolType) + rest == [] + Put16(h.flags) + (Put16(h.protocolType) + rest);
    NumberInside([], Put16(h.flags), Put16(h.protocolType) + rest, 2);
    NumberInside(Put16(h.flags), Put16(h.protocolType), rest, 2);
  }

  lemma ChecksumLayout(h: Header, fixed: bytes, rest: bytes)
    requires h.HasChecksum()
    ensures var b := fixed + ChecksumField(h) + rest;
            NumberAt(b, |fixed|, 2) == h.checksum && NumberAt(b, |fixed| + 2, 2) == h.reserved1
  {
    hide Put16, NumberAt;
    BigEndian(h.checksum, 0);
    BigEndian(h.reserved1, 0);
    assert fixed + ChecksumField(h) + rest == fixed + Put16(h.checksum) + (Put16(h.reserved1) + rest);
    NumberInside(fixed, Put16(h.checksum), Put16(h.reserved1) + rest, 2);
    assert fixed + ChecksumField(h) + rest == fixed + Put16(h.checksum) + Put16(h.reserved1) + rest;
    NumberInside(fixed + Put16(h.checksum), Put16(h.reserved1), rest, 2);
  }

  lemma LateLayout(h: Header, front: bytes)
    ensures var b := front + KeyField(h) + SequenceField(h);
            && (h.HasKey() ==> NumberAt(b, |front|, 4) == h.key)
            && (h.HasSequence() ==> NumberAt(b, |front| + |KeyField(h)|, 4) == h.sequence)
  {
    hide Put32, NumberAt;
    BigEndian(0, h.key);
    BigEndian(0, h.sequence);
    NumberInside(front, KeyField(h), SequenceField(h), |KeyField(h)|);
    assert front + KeyField(h) + SequenceField(h) == front + KeyField(h) + SequenceField(h) + [];
    NumberInside(front + KeyField(h), SequenceField(h), [], |SequenceField(h)|);
  }

  /** The optional fields come in this order, each with its bit: checksum (bit 0 of the header, counted
      as in section 2 of RFC 2784), key (bit 2) and sequence number (bit 3). */
  lemma HeaderLayout(h: Header)
    ensures var b := EncodeHeader(h);
            var key := if h.flags / 0x8000 == 1 then 8 else 4;
            var sequence := if h.flags / 0x2000 % 2 == 1 then key + 4 else key;
            && |b| == (if h.flags / 0x1000 % 2 == 1 then sequence + 4 else sequence)
            && NumberAt(b, 0, 2) == h.flags && NumberAt(b, 2, 2) == h.protocolType
            && (key == 8 ==> NumberAt(b, 4, 2) == h.checksum && NumberAt(b, 6, 2) == h.reserved1)
            && (h.flags / 0x2000 % 2 == 1 ==> NumberAt(b, key, 4) == h.key)
            && (h.flags / 0x1000 % 2 == 1 ==> NumberAt(b, sequence, 4) == h.sequence)
  {
    hide Put16, Put32, NumberAt;
    var fixed := Put16(h.flags) + Put16(h.protocolType);
    var tail := KeyField(h) + SequenceField(h);
    assert EncodeHeader(h) == fixed + (ChecksumField(h) + tail) == fixed + ChecksumField(h) + tail;
    FixedLayout(h, ChecksumField(h) + tail);
    if h.HasChecksum() {
      ChecksumLayout(h, fixed, tail);
    }
    LateLayout(h, fixed + ChecksumField(h));
  }

  /** What the program sends: no checksum and no sequence number, version 0, EtherType 0x6558, the key. */
  lemma PacketLayout(key: uint32, payload: bytes)
    ensures var b := EncodePacket(NewPacket(key, payload));
            && |b| == 8 + |payload| && b[..4] == [0x20, 0x00, 0x65, 0x58]
            && NumberAt(b, 4, 4) == key && b[8..] == payload
  {
    hide Put32, NumberAt;
    BigEndian(0, key);
    var fixed := Put16(FLAG_KEY) + Put16(ETHER_TYPE_TRANSPARENT_ETHERNET);
    assert fixed == [0x20, 0x00, 0x65, 0x58];
    assert EncodePacket(NewPacket(key, payload)) == fixed + Put32(key) + payload;
    NumberInside(fixed, Put32(key), payload, 4);
  }
}
