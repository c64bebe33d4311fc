/** The wire form of IPv4 datagrams, and of TCP segments inside them. */
module Ipv4Codec {
  import opened Bytes
  import opened Segments
  import opened Checksums
  import opened NetParsing
  import opened TcpCodec

  const IP_HEADER_LENGTH: nat := 20

  datatype IpHeader = IpHeader(
    ver: U8, hlen: U8, tos: U8, len: U16, id: U16, df: bool, mf: bool, offset: U16,
    ttl: U8, proto: U8, cksum: U16, src: U32, dst: U32)

  const DEFAULT_IP_HEADER: IpHeader := IpHeader(4, 5, 0, 0, 0, true, false, 0, 128, 6, 0, 0, 0)

  function PayloadLength(h: IpHeader): U16 {
    (h.len - 4 * h.hlen) % 0x1_0000
  }

  /** The pseudo-header's contribution to the TCP checksum. */
  function PseudoChecksum(h: IpHeader): (c: U32)
    ensures c <= 0x8000_0000
  {
    h.src / 0x1_0000 + h.src % 0x1_0000 + (h.dst / 0x1_0000 + h.dst % 0x1_0000) + h.proto + PayloadLength(h)
  }

  /** It is the sum over the pseudo-header of section 3.1 of RFC 793: both addresses, a zero byte, the protocol, and the
      length of the segment as 16 bits. */
  lemma PseudoHeaderSum(h: IpHeader, n: nat)
    requires n < 0x1_0000 && (n == h.len - 4 * h.hlen || n == h.len - 4 * h.hlen + 0x1_0000)
    ensures PseudoChecksum(h) ==
            WordSum(ToBytes(h.src, 4) + ToBytes(h.dst, 4) + [0] + ToBytes(h.proto, 1) + ToBytes(n, 2), false)
  {
    hide WordSum, ToBytes;
    var a, b, c, d := ToBytes(h.src, 4), ToBytes(h.dst, 4), ToBytes(h.proto, 1), ToBytes(n, 2);
    WordSumConcat(a + b + [0] + c, d, false);
    WordSumConcat(a + b + [0], c, false);
    WordSumConcat(a + b, [0], false);
    WordSumConcat(a, b, false);
    SumFour(h.src);
    SumFour(h.dst);
    SumTwo(n);
    SumOne(h.proto);
  }

  lemma SumOne(v: U8)
    ensures WordSum(ToBytes(v, 1), true) == v && WordSum([0], false) == 0
  {
    assert ToBytes(v, 1) == [v as Byte];
  }

  lemma SumTwo(v: nat)
    requires v < 0x1_0000
    ensures WordSum(ToBytes(v, 2), false) == v
  {
    var x, y := (v / 256) as Byte, (v % 256) as Byte;
    assert ToBytes(v, 2) == [x, y] && [x, y][1..] == [y];
    assert WordSum([y], true) == y as int;
  }

  lemma SumFour(v: U32)
    ensures WordSum(ToBytes(v, 4), false) == v / 0x1_0000 + v % 0x1_0000
  {
    var hi, lo := v / 0x1_0000, v % 0x1_0000;
    assert ToBytes(v, 4) == ToBytes(v / 256 / 256, 2) + [(v / 256 % 256) as Byte, (v % 256) as Byte];
    assert v / 256 / 256 == hi && v / 256 % 256 == lo / 256 && v % 256 == lo % 256;
    assert ToBytes(lo, 2) == [(lo / 256) as Byte, (lo % 256) as Byte];
    WordSumConcat(ToBytes(hi, 2), ToBytes(lo, 2), false);
    SumTwo(hi);
    SumTwo(lo);
  }

  function VersionByte(h: IpHeader): U8 {
    h.ver % 16 * 16 + h.hlen % 16
  }

  function FragmentWord(h: IpHeader): U16 {
    (if h.df then 0x4000 else 0) + (if h.mf then 0x2000 else 0) + h.offset % 0x2000
  }

  function IpFrontThen(h: IpHeader, rest: seq<Byte>): (s: seq<Byte>)
    ensures |s| == 10 + |rest|
  {
    ToBytes(VersionByte(h), 1) + (ToBytes(h.tos, 1) + (ToBytes(h.len, 2) + (ToBytes(h.id, 2) +
    (ToBytes(FragmentWord(h), 2) + (ToBytes(h.ttl, 1) + (ToBytes(h.proto, 1) + rest))))))
  }

  function IpFieldsThen(h: IpHeader, rest: seq<Byte>): (s: seq<Byte>)
    ensures |s| == IP_HEADER_LENGTH + |rest|
  {
    IpFrontThen(h, ToBytes(h.cksum, 2) + (ToBytes(h.src, 4) + (ToBytes(h.dst, 4) + rest)))
  }

  /** A wrong version or a header below the minimum is an error. */
  function SerializeIpHeader(h: IpHeader): Option<seq<Byte>> {
    if h.ver != 4 || 4 * h.hlen < IP_HEADER_LENGTH then None
    else Some(IpFieldsThen(h, Zeros(4 * h.hlen - IP_HEADER_LENGTH)))
  }

  function WithIpChecksum(h: IpHeader): IpHeader
    requires h.ver == 4 && 5 <= h.hlen
  {
    h.(cksum := ChecksumOf(SumWith(0, SerializeIpHeader(h.(cksum := 0)).value)))
  }

  function SerializeDatagram(h: IpHeader, payload: seq<Byte>): Option<seq<Byte>> {
    if |payload| != PayloadLength(h) || h.ver != 4 || h.hlen < 5 then None
    else Some(SerializeIpHeader(WithIpChecksum(h)).value + payload)
  }

  function MakeIpHeader(first: U8, tos: U8, len: U16, id: U16, fo: U16, ttl: U8, proto: U8, cksum: U16,
                        src: U32, dst: U32): IpHeader
  {
    IpHeader(first / 16, first % 16, tos, len, id, fo / 0x4000 % 2 == 1, fo / 0x2000 % 2 == 1, fo % 0x2000,
             ttl, proto, cksum, src, dst)
  }

  function ReadIpFields(p0: Parser): (IpHeader, Parser) {
    var p1 := p0.AfterInt(1);
    var p2 := p1.AfterInt(1);
    var p3 := p2.AfterInt(2);
    var p4 := p3.AfterInt(2);
    var p5 := p4.AfterInt(2);
    var p6 := p5.AfterInt(1);
    var p7 := p6.AfterInt(1);
    var p8 := p7.AfterInt(2);
    var p9 := p8.AfterInt(4);
    (MakeIpHeader(p0.Read8(), p1.Read8(), p2.Read16(), p3.Read16(), p4.Read16(), p5.Read8(), p6.Read8(),
                  p7.Read16(), p8.Read32(), p9.Read32()), p9.AfterInt(4))
  }

  datatype IpHeaderParse = IpHeaderParse(header: IpHeader, parser: Parser, result: ParseResult)

  /** The checks before options are skipped, in the order they are made. */
  function ShapeResult(h: IpHeader, size: nat): ParseResult {
    if size < 4 * h.hlen then PacketTooShort
    else if h.ver != 4 then WrongIPVersion
    else if h.hlen < 5 then HeaderTooShort
    else if size != h.len then TruncatedPacket
    else NoError
  }

  /** A header too short to read leaves the fields as they were. */
  function ParseIpHeader(prior: IpHeader, p: Parser): IpHeaderParse {
    if |p.buffer| < IP_HEADER_LENGTH then IpHeaderParse(prior, p, PacketTooShort)
    else
      var (h, p1) := ReadIpFields(p);
      var shape := ShapeResult(h, |p.buffer|);
      if shape != NoError then IpHeaderParse(h, p1, shape)
      else
        var q := p1.RemovePrefix(h.hlen * 4 - IP_HEADER_LENGTH);
        if q.error != NoError then IpHeaderParse(h, q, q.error)
        else if ChecksumOf(SumWith(0, p.buffer[..4 * h.hlen])) != 0 then IpHeaderParse(h, q, BadChecksum)
        else IpHeaderParse(h, q, NoError)
  }

  datatype DatagramParse = DatagramParse(header: IpHeader, payload: seq<Byte>, result: ParseResult)

  /** Only the parser's error and the payload's length are looked at, not the header's own result. */
  function ParseDatagram(buffer: seq<Byte>): DatagramParse {
    var hp := ParseIpHeader(DEFAULT_IP_HEADER, Parser(buffer, NoError));
    var payload := hp.parser.buffer;
    DatagramParse(hp.header, payload,
                  if |payload| != PayloadLength(hp.header) then PacketTooShort else hp.parser.error)
  }

  // ---- headers ----

  lemma IpFrontAppend(h: IpHeader, x: seq<Byte>, y: seq<Byte>)
    ensures IpFrontThen(h, x) + y == IpFrontThen(h, x + y)
  {
    hide ToBytes, VersionByte, FragmentWord;
    var t7 := ToBytes(h.proto, 1) + x;
    var t6 := ToBytes(h.ttl, 1) + t7;
    var t5 := ToBytes(FragmentWord(h), 2) + t6;
    var t4 := ToBytes(h.id, 2) + t5;
    var t3 := ToBytes(h.len, 2) + t4;
    var t2 := ToBytes(h.tos, 1) + t3;
    Assoc(ToBytes(h.proto, 1), x, y);
    Assoc(ToBytes(h.ttl, 1), t7, y);
    Assoc(ToBytes(FragmentWord(h), 2), t6, y);
    Assoc(ToBytes(h.id, 2), t5, y);
    Assoc(ToBytes(h.len, 2), t4, y);
    Assoc(ToBytes(h.tos, 1), t3, y);
    Assoc(ToBytes(VersionByte(h), 1), t2, y);
  }

  lemma IpFieldsAppend(h: IpHeader, x: seq<Byte>, y: seq<Byte>)
    ensures IpFieldsThen(h, x) + y == IpFieldsThen(h, x + y)
  {
    hide ToBytes, IpFrontThen;
    var t9 := ToBytes(h.dst, 4) + x;
    var t8 := ToBytes(h.src, 4) + t9;
    IpFrontAppend(h, ToBytes(h.cksum, 2) + t8, y);
    Assoc(ToBytes(h.cksum, 2), t8, y);
    Assoc(ToBytes(h.src, 4), t9, y);
    Assoc(ToBytes(h.dst, 4), x, y);
  }

  lemma MakeIpHeaderBack(h: IpHeader)
    requires h.ver <= 15 && h.hlen <= 15 && h.offset < 0x2000
    ensures MakeIpHeader(VersionByte(h), h.tos, h.len, h.id, FragmentWord(h), h.ttl, h.proto, h.cksum,
                         h.src, h.dst) == h
  {
  }

  lemma IpFieldsReadBack(h: IpHeader, rest: seq<Byte>)
    requires h.ver <= 15 && h.hlen <= 15 && h.offset < 0x2000
    ensures ReadIpFields(Parser(IpFieldsThen(h, rest), NoError)) == (h, Parser(rest, NoError))
  {
    MakeIpHeaderBack(h);
    hide ToBytes, VersionByte, FragmentWord, Parser.Read8, Parser.Read16, Parser.Read32, Parser.AfterInt, MakeIpHeader;
    var t10 := ToBytes(h.dst, 4) + rest;
    var t9 := ToBytes(h.src, 4) + t10;
    var t8 := ToBytes(h.cksum, 2) + t9;
    var t7 := ToBytes(h.proto, 1) + t8;
    var t6 := ToBytes(h.ttl, 1) + t7;
    var t5 := ToBytes(FragmentWord(h), 2) + t6;
    var t4 := ToBytes(h.id, 2) + t5;
    var t3 := ToBytes(h.len, 2) + t4;
    var t2 := ToBytes(h.tos, 1) + t3;
    ReadBack8(VersionByte(h), t2);
    ReadBack8(h.tos, t3);
    ReadBack16(h.len, t4);
    ReadBack16(h.id, t5);
    ReadBack16(FragmentWord(h), t6);
    ReadBack8(h.ttl, t7);
    ReadBack8(h.proto, t8);
    ReadBack16(h.cksum, t9);
    ReadBack32(h.src, t10);
    ReadBack32(h.dst, rest);
  }

  /** The layout of section 3.1 of RFC 791: every field at its place, most significant byte first. */
  lemma IpHeaderLayout(h: IpHeader, rest: seq<Byte>)
    requires h.ver <= 15 && h.hlen <= 15 && h.offset < 0x2000
    ensures var w := IpFieldsThen(h, rest);
            && FromBytes(w[0..1]) == 16 * h.ver + h.hlen && FromBytes(w[1..2]) == h.tos
            && FromBytes(w[2..4]) == h.len && FromBytes(w[4..6]) == h.id
            && FromBytes(w[6..8]) == (if h.df then 0x4000 else 0) + (if h.mf then 0x2000 else 0) + h.offset
            && FromBytes(w[8..9]) == h.ttl && FromBytes(w[9..10]) == h.proto && FromBytes(w[10..12]) == h.cksum
            && FromBytes(w[12..16]) == h.src && FromBytes(w[16..20]) == h.dst && w[20..] == rest
  {
    assert Pow256(2) == 0x1_0000 && Pow256(4) == 0x1_0000_0000;
    var t10 := ToBytes(h.dst, 4) + rest;
    var t9 := ToBytes(h.src, 4) + t10;
    var t8 := ToBytes(h.cksum, 2) + t9;
    IpFrontLayout(h, t8);
    hide ToBytes, FromBytes, Pow256, IpFrontThen;
    var w := IpFieldsThen(h, rest);
    FieldRead(w, 10, h.cksum, 2, t9);
    FieldRead(w, 12, h.src, 4, t10);
    FieldRead(w, 16, h.dst, 4, rest);
  }

  lemma IpFrontLayout(h: IpHeader, x: seq<Byte>)
    requires h.ver <= 15 && h.hlen <= 15 && h.offset < 0x2000
    ensures var w := IpFrontThen(h, x);
            && FromBytes(w[0..1]) == 16 * h.ver + h.hlen && FromBytes(w[1..2]) == h.tos
            && FromBytes(w[2..4]) == h.len && FromBytes(w[4..6]) == h.id
            && FromBytes(w[6..8]) == (if h.df then 0x4000 else 0) + (if h.mf then 0x2000 else 0) + h.offset
            && FromBytes(w[8..9]) == h.ttl && FromBytes(w[9..10]) == h.proto && w[10..] == x
  {
    assert Pow256(1) == 0x100 && Pow256(2) == 0x1_0000;
    assert VersionByte(h) == 16 * h.ver + h.hlen;
    assert FragmentWord(h) == (if h.df then 0x4000 else 0) + (if h.mf then 0x2000 else 0) + h.offset;
    hide ToBytes, FromBytes, Pow256, VersionByte, FragmentWord;
    var w := IpFrontThen(h, x);
    var t7 := ToBytes(h.proto, 1) + x;
    var t6 := ToBytes(h.ttl, 1) + t7;
    var t5 := ToBytes(FragmentWord(h), 2) + t6;
    var t4 := ToBytes(h.id, 2) + t5;
    var t3 := ToBytes(h.len, 2) + t4;
    var t2 := ToBytes(h.tos, 1) + t3;
    assert FieldAt(w, 0, VersionByte(h), 1, t2);
    hide IpFrontThen;
    FieldRead(w, 0, VersionByte(h), 1, t2);
    FieldRead(w, 1, h.tos, 1, t3);
    FieldRead(w, 2, h.len, 2, t4);
    FieldRead(w, 4, h.id, 2, t5);
    FieldRead(w, 6, FragmentWord(h), 2, t6);
    FieldRead(w, 8, h.ttl, 1, t7);
    FieldRead(w, 9, h.proto, 1, x);
  }

  lemma IpFrontSum(h: IpHeader, v: U16, tail: seq<Byte>)
    ensures WordSum(IpFrontThen(h, ToBytes(v, 2) + tail), false) ==
            WordSum(IpFrontThen(h, []), false) + v + WordSum(tail, false)
  {
    hide ToBytes, IpFrontThen, WordSum;
    var x := ToBytes(v, 2) + tail;
    IpFrontAppend(h, [], x);
    assert [] + x == x;
    WordSumConcat(IpFrontThen(h, []), x, false);
    FieldSum(v, tail);
  }

  lemma IpFrontIgnoresChecksum(h: IpHeader, v: U16, x: seq<Byte>)
    ensures IpFrontThen(h.(cksum := v), x) == IpFrontThen(h, x)
  {
    hide ToBytes;
  }

  lemma IpChecksumFieldSum(h: IpHeader, v: U16, rest: seq<Byte>)
    ensures WordSum(IpFieldsThen(h.(cksum := v), rest), false) == WordSum(IpFieldsThen(h.(cksum := 0), rest), false) + v
  {
    var tail := ToBytes(h.src, 4) + (ToBytes(h.dst, 4) + rest);
    IpFrontSum(h, v, tail);
    IpFrontSum(h, 0, tail);
    hide ToBytes, WordSum, IpFrontThen;
    IpFrontIgnoresChecksum(h, v, ToBytes(v, 2) + tail);
    IpFrontIgnoresChecksum(h, 0, ToBytes(0, 2) + tail);
  }

  ghost predicate Wrappable(h: IpHeader, payload: seq<Byte>) {
    h.ver == 4 && 5 <= h.hlen <= 15 && h.offset < 0x2000 && 4 * h.hlen + |payload| == h.len
  }

  /** A well-shaped header is read back, the options skipped, and judged by its checksum alone. */
  lemma IpHeaderRead(h: IpHeader, payload: seq<Byte>)
    requires Wrappable(h, payload)
    ensures var bytes := SerializeIpHeader(h).value;
            && |bytes| == 4 * h.hlen
            && ParseIpHeader(DEFAULT_IP_HEADER, Parser(bytes + payload, NoError)) ==
               IpHeaderParse(h, Parser(payload, NoError),
                             if ChecksumOf(SumWith(0, bytes)) != 0 then BadChecksum else NoError)
  {
    hide IpFieldsThen, ReadIpFields, ChecksumOf, SumWith;
    var z := Zeros(4 * h.hlen - IP_HEADER_LENGTH);
    var bytes := IpFieldsThen(h, z);
    IpFieldsAppend(h, z, payload);
    IpFieldsReadBack(h, z + payload);
    assert (bytes + payload)[..4 * h.hlen] == bytes;
    assert (z + payload)[|z|..] == payload;
  }

  lemma IpHeaderChecks(h: IpHeader)
    requires h.ver == 4 && 5 <= h.hlen <= 15
    ensures ChecksumOf(SumWith(0, SerializeIpHeader(WithIpChecksum(h)).value)) == 0
  {
    hide IpFieldsThen, ChecksumOf, SumWith, WordSum;
    var z := Zeros(4 * h.hlen - IP_HEADER_LENGTH);
    var zeroed := IpFieldsThen(h.(cksum := 0), z);
    var v := ChecksumOf(SumWith(0, zeroed));
    SumFits(0, zeroed);
    SumFits(0, IpFieldsThen(h.(cksum := v), z));
    IpChecksumFieldSum(h, v, z);
    ChecksumChecks(WordSum(zeroed, false));
  }

  // ---- datagrams ----

  /** Serializing and parsing a datagram gives it back, header checksum filled in and accepted. */
  lemma DatagramRoundTrip(h: IpHeader, payload: seq<Byte>)
    requires Wrappable(h, payload)
    ensures SerializeDatagram(h, payload).Some?
    ensures var wire := SerializeDatagram(h, payload).value;
            && ParseDatagram(wire) == DatagramParse(WithIpChecksum(h), payload, NoError)
            && ParseIpHeader(DEFAULT_IP_HEADER, Parser(wire, NoError)).result == NoError
            && WithIpChecksum(h) == h.(cksum := WithIpChecksum(h).cksum)
  {
    hide SerializeIpHeader, ParseIpHeader, ChecksumOf, SumWith;
    IpHeaderChecks(h);
    IpHeaderRead(WithIpChecksum(h), payload);
  }

  /** A TCP segment wrapped in a datagram with the pseudo-header's checksum comes back unchanged. */
  lemma NestedRoundTrip(h: IpHeader, seg: TcpSegment)
    requires h.ver == 4 && 5 <= h.hlen <= 15 && h.offset < 0x2000 && 5 <= seg.header.doff <= 15
    requires h.len == 4 * h.hlen + 4 * seg.header.doff + |seg.payload|
    ensures SerializeSegment(seg, PseudoChecksum(h)).Some?
    ensures var inner := SerializeSegment(seg, PseudoChecksum(h)).value;
            SerializeDatagram(h, inner).Some? &&
            var d := ParseDatagram(SerializeDatagram(h, inner).value);
            && d == DatagramParse(WithIpChecksum(h), inner, NoError)
            && ParseSegment(d.payload, PseudoChecksum(d.header)) ==
               SegmentParse(Some(WithChecksum(seg, PseudoChecksum(h))), NoError)
            && Resummed(seg, WithChecksum(seg, PseudoChecksum(h)))
  {
    hide WithChecksum, SerializeHeader, ParseSegment, ChecksumOf, SumWith;
    hide ParseDatagram, PseudoChecksum, WithIpChecksum, SerializeDatagram;
    var pseudo := PseudoChecksum(h);
    SerializedChecks(seg, pseudo);
    SegmentRoundTrip(seg, pseudo);
    var inner := SerializeSegment(seg, pseudo).value;
    hide SerializeSegment;
    DatagramRoundTrip(h, inner);
    PseudoIgnoresChecksum(h);
  }

  function PseudoHeader(h: IpHeader): seq<Byte> {
    ToBytes(h.src, 4) + ToBytes(h.dst, 4) + [0] + ToBytes(h.proto, 1) + ToBytes(PayloadLength(h), 2)
  }

  /** The rule of section 3.1 of RFC 793: the words of the pseudo-header and of the segment, its checksum included, add
      up to a multiple of 65535. */
  lemma SegmentSums(h: IpHeader, seg: TcpSegment)
    requires 5 <= seg.header.doff <= 15 && 4 * seg.header.doff + |seg.payload| <= 0xffff
    ensures var wire := SerializeSegment(seg, PseudoChecksum(h));
            wire.Some? && WordSum(PseudoHeader(h) + wire.value, false) % 0xffff == 0
  {
    hide ChecksumOf, SumWith, WordSum, ToBytes, PseudoChecksum, SerializeSegment, WithChecksum;
    var pseudo := PseudoChecksum(h);
    SerializedChecks(seg, pseudo);
    Serialized(seg, pseudo);
    var wire := SerializeSegment(seg, pseudo).value;
    SumFits(pseudo, wire);
    ChecksumZero(SumWith(pseudo, wire));
    PseudoHeaderSum(h, PayloadLength(h));
    WordSumConcat(PseudoHeader(h), wire, false);
  }

  lemma Serialized(seg: TcpSegment, pseudo: U32)
    requires 5 <= seg.header.doff
    ensures SerializeSegment(seg, pseudo).Some?
  {
    hide WithChecksum, SerializeHeader;
  }

  lemma PseudoIgnoresChecksum(h: IpHeader)
    requires h.ver == 4 && 5 <= h.hlen
    ensures PseudoChecksum(WithIpChecksum(h)) == PseudoChecksum(h)
  {
    hide ChecksumOf, SumWith, SerializeIpHeader;
  }

  /** Exactly which buffers are taken as datagrams. */
  lemma DatagramAccepted(buffer: seq<Byte>)
    ensures ParseDatagram(buffer).result == NoError <==>
            && IP_HEADER_LENGTH <= |buffer|
            && var h := ReadIpFields(Parser(buffer, NoError)).0;
               ShapeResult(h, |buffer|) == NoError || |buffer| - IP_HEADER_LENGTH == PayloadLength(h)
  {
    hide ReadIpFields, ChecksumOf, SumWith, PayloadLength, ShapeResult;
    if IP_HEADER_LENGTH <= |buffer| {
      ReadIpFieldsRest(buffer);
      var (h, p1) := ReadIpFields(Parser(buffer, NoError));
      if ShapeResult(h, |buffer|) == NoError {
        ShapedLength(h, |buffer|);
      }
    } else {
      assert PayloadLength(DEFAULT_IP_HEADER) == 0xffec by {
        DefaultPayloadLength();
      }
    }
  }

  lemma DefaultPayloadLength()
    ensures PayloadLength(DEFAULT_IP_HEADER) == 0xffec
  {
  }

  lemma ShapedLength(h: IpHeader, size: nat)
    requires ShapeResult(h, size) == NoError
    ensures IP_HEADER_LENGTH <= 4 * h.hlen <= size && PayloadLength(h) == size - 4 * h.hlen
  {
  }

  lemma ReadIpFieldsRest(buffer: seq<Byte>)
    requires IP_HEADER_LENGTH <= |buffer|
    ensures ReadIpFields(Parser(buffer, NoError)).1.error == NoError
    ensures ReadIpFields(Parser(buffer, NoError)).1.buffer == buffer[IP_HEADER_LENGTH..]
  {
    hide MakeIpHeader, Parser.Read8, Parser.Read16, Parser.Read32;
  }

  /** The header's own verdict is dropped: a datagram is taken although its header is refused exactly when the
      checksum is wrong, or the shape is and the lengths happen to match with no options skipped. */
  lemma IpVerdictDropped(buffer: seq<Byte>)
    ensures ParseDatagram(buffer).result == NoError &&
            ParseIpHeader(DEFAULT_IP_HEADER, Parser(buffer, NoError)).result != NoError <==>
            && IP_HEADER_LENGTH <= |buffer|
            && var h := ReadIpFields(Parser(buffer, NoError)).0;
               if ShapeResult(h, |buffer|) == NoError then ChecksumOf(SumWith(0, buffer[..4 * h.hlen])) != 0
               else |buffer| - IP_HEADER_LENGTH == PayloadLength(h)
  {
    DatagramAccepted(buffer);
    if IP_HEADER_LENGTH <= |buffer| {
      ReadIpFieldsRest(buffer);
    }
    hide ReadIpFields, ChecksumOf, SumWith, ParseDatagram;
  }

  /** Exactly which headers are written, and how they are filled up to the length they announce. */
  lemma IpHeaderPadded(h: IpHeader)
    ensures SerializeIpHeader(h).None? <==> h.ver != 4 || h.hlen < 5
    ensures SerializeIpHeader(h).Some? ==>
              var w := SerializeIpHeader(h).value;
              |w| == 4 * h.hlen && w[..20] == IpFieldsThen(h, []) && forall i :: 20 <= i < |w| ==> w[i] == 0
  {
    if h.ver == 4 && 5 <= h.hlen {
      hide IpFrontThen, ToBytes;
      var z := Zeros(4 * h.hlen - IP_HEADER_LENGTH);
      IpFieldsAppend(h, [], z);
      assert [] + z == z;
    }
  }

  /** Exactly which datagrams are written: those whose header can be and announces the payload's size, in 16 bits. */
  lemma DatagramWritten(h: IpHeader, payload: seq<Byte>)
    ensures SerializeDatagram(h, payload).Some? <==>
            h.ver == 4 && 5 <= h.hlen && |payload| == (h.len - 4 * h.hlen) % 0x1_0000
    ensures SerializeDatagram(h, payload).Some? ==>
              var w := SerializeDatagram(h, payload).value;
              4 * h.hlen <= |w| && w[4 * h.hlen..] == payload
  {
    hide ChecksumOf, SumWith, IpFieldsThen;
    if h.ver == 4 && 5 <= h.hlen {
      IpHeaderPadded(WithIpChecksum(h));
    }
  }

  // ---- results by bytes ----

  /** What the header parser reports of a buffer, byte by byte. */
  function IpVerdict(buffer: seq<Byte>): ParseResult {
    if |buffer| < 20 then PacketTooShort
    else
      var words := buffer[0] as int % 16;
      if |buffer| < 4 * words then PacketTooShort
      else if buffer[0] as int / 16 != 4 then WrongIPVersion
      else if words < 5 then HeaderTooShort
      else if |buffer| != 256 * buffer[2] as int + buffer[3] as int then TruncatedPacket
      else if ChecksumOf(WordSum(buffer[..4 * words], false)) != 0 then BadChecksum
      else NoError
  }

  lemma IpVerdictMeans(prior: IpHeader, buffer: seq<Byte>)
    ensures ParseIpHeader(prior, Parser(buffer, NoError)).result == IpVerdict(buffer)
  {
    hide ReadIpFields, ChecksumOf, WordSum;
    if IP_HEADER_LENGTH <= |buffer| {
      ReadIpFieldsRest(buffer);
      LengthsRead(buffer);
      var n := 4 * (buffer[0] as int % 16);
      if n <= |buffer| {
        SumFits(0, buffer[..n]);
      }
    }
  }

  lemma LengthsRead(buffer: seq<Byte>)
    requires IP_HEADER_LENGTH <= |buffer|
    ensures var h := ReadIpFields(Parser(buffer, NoError)).0;
            && h.ver == buffer[0] as int / 16 && h.hlen == buffer[0] as int % 16
            && h.len == 256 * buffer[2] as int + buffer[3] as int
  {
    hide FromBytes;
    var p := Parser(buffer, NoError);
    var q := p.AfterInt(1).AfterInt(1);
    assert q == Parser(buffer[2..], NoError);
    OneByte(buffer[..1]);
    TwoBytes(buffer[2..][..2]);
  }

  lemma TwoBytes(s: seq<Byte>)
    requires |s| == 2
    ensures FromBytes(s) == 256 * s[0] as int + s[1] as int
  {
    OneByte(s[..1]);
  }

  /** Exactly which buffers are taken as datagrams, byte by byte. */
  lemma DatagramAcceptedBytes(buffer: seq<Byte>)
    ensures var d := ParseDatagram(buffer);
            && (d.result == NoError || d.result == PacketTooShort)
            && (d.result == NoError <==>
                  && 20 <= |buffer|
                  && var words, len := buffer[0] as int % 16, 256 * buffer[2] as int + buffer[3] as int;
                     WellShaped(buffer) || |buffer| - 20 == (len - 4 * words) % 0x1_0000)
            && (d.result == NoError ==>
                  d.payload == buffer[if WellShaped(buffer) then 4 * (buffer[0] as int % 16) else 20..])
  {
    hide ReadIpFields, ParseDatagram;
    DatagramAccepted(buffer);
    PayloadStart(buffer);
    if IP_HEADER_LENGTH <= |buffer| {
      LengthsRead(buffer);
    }
  }

  /** Version four, at least five words of header, all of them there, and the length announced. */
  predicate WellShaped(buffer: seq<Byte>) {
    && 20 <= |buffer| && buffer[0] as int / 16 == 4
    && 5 <= buffer[0] as int % 16 && 4 * (buffer[0] as int % 16) <= |buffer|
    && |buffer| == 256 * buffer[2] as int + buffer[3] as int
  }

  lemma PayloadStart(buffer: seq<Byte>)
    ensures var d := ParseDatagram(buffer);
            && (d.result == NoError || d.result == PacketTooShort)
            && (20 <= |buffer| ==>
                  d.payload == buffer[if WellShaped(buffer) then 4 * (buffer[0] as int % 16) else 20..])
  {
    hide ReadIpFields, ChecksumOf, SumWith;
    if IP_HEADER_LENGTH <= |buffer| {
      ReadIpFieldsRest(buffer);
      LengthsRead(buffer);
    }
  }

  /** So no header checksum, right or wrong, makes any difference to a datagram. */
  lemma ChecksumWithoutEffect(h: IpHeader, payload: seq<Byte>)
    requires Wrappable(h, payload)
    ensures ParseDatagram(SerializeIpHeader(h).value + payload) == DatagramParse(h, payload, NoError)
  {
    hide SerializeIpHeader, ParseIpHeader, ChecksumOf, SumWith;
    IpHeaderRead(h, payload);
  }

  // ---- the methods ----

  method ParseIpHeaderFrom(prior: IpHeader, p: NetParser) returns (h: IpHeader, result: ParseResult)
    modifies p
    ensures IpHeaderParse(h, p.Value(), result) == ParseIpHeader(prior, old(p.Value()))
  {
    hide Parser.Read8, Parser.Read16, Parser.Read32, Parser.AfterInt, MakeIpHeader, ChecksumOf, WordSum, ReadIpFields;
    var original := p.buffer;
    var dataSize := |p.buffer|;
    if dataSize < IP_HEADER_LENGTH {
      return prior, PacketTooShort;
    }
    h := ReadIpFieldsFrom(p);
    if dataSize < 4 * h.hlen {
      return h, PacketTooShort;
    }
    if h.ver != 4 {
      return h, WrongIPVersion;
    }
    if h.hlen < 5 {
      return h, HeaderTooShort;
    }
    if dataSize != h.len {
      return h, TruncatedPacket;
    }
    p.RemovePrefix(h.hlen * 4 - IP_HEADER_LENGTH);
    if p.error != NoError {
      return h, p.error;
    }
    var check := new InternetChecksum(0);
    check.Add(original[..4 * h.hlen]);
    var value := check.Value();
    if value != 0 {
      return h, BadChecksum;
    }
    return h, NoError;
  }

  method ReadIpFieldsFrom(p: NetParser) returns (h: IpHeader)
    modifies p
    ensures (h, p.Value()) == ReadIpFields(old(p.Value()))
  {
    hide Parser.Read8, Parser.Read16, Parser.Read32, Parser.AfterInt, MakeIpHeader;
    var first := p.U8();
    var tos := p.U8();
    var len := p.U16();
    var id := p.U16();
    var fo := p.U16();
    var ttl := p.U8();
    var proto := p.U8();
    var cksum := p.U16();
    var src := p.U32();
    var dst := p.U32();
    h := MakeIpHeader(first, tos, len, id, fo, ttl, proto, cksum, src, dst);
  }

  method WriteIpHeader(h: IpHeader) returns (ret: Option<seq<Byte>>)
    ensures ret == SerializeIpHeader(h)
  {
    if h.ver != 4 {
      return None;
    }
    if 4 * h.hlen < IP_HEADER_LENGTH {
      return None;
    }
    hide ToBytes, VersionByte, FragmentWord;
    var s := UnparseInt([], VersionByte(h), 1);
    s := UnparseInt(s, h.tos, 1);
    s := UnparseInt(s, h.len, 2);
    s := UnparseInt(s, h.id, 2);
    s := UnparseInt(s, FragmentWord(h), 2);
    s := UnparseInt(s, h.ttl, 1);
    s := UnparseInt(s, h.proto, 1);
    IpFrontFlat(h);
    var front := s;
    s := UnparseInt(s, h.cksum, 2);
    s := UnparseInt(s, h.src, 4);
    s := UnparseInt(s, h.dst, 4);
    var z := Zeros(4 * h.hlen - IP_HEADER_LENGTH);
    IpTail(h, front, z);
    ret := Some(s + z);
  }

  lemma IpTail(h: IpHeader, front: seq<Byte>, z: seq<Byte>)
    requires front == IpFrontThen(h, [])
    ensures front + ToBytes(h.cksum, 2) + ToBytes(h.src, 4) + ToBytes(h.dst, 4) + z == IpFieldsThen(h, z)
  {
    hide ToBytes, IpFrontThen;
    var a, b, c := ToBytes(h.cksum, 2), ToBytes(h.src, 4), ToBytes(h.dst, 4);
    Assoc(front + a + b, c, z);
    Assoc(front + a, b, c + z);
    Assoc(front, a, b + (c + z));
    IpFrontAppend(h, [], a + (b + (c + z)));
    assert [] + (a + (b + (c + z))) == a + (b + (c + z));
  }

  lemma IpFrontFlat(h: IpHeader)
    ensures IpFrontThen(h, []) ==
            [] + ToBytes(VersionByte(h), 1) + ToBytes(h.tos, 1) + ToBytes(h.len, 2) + ToBytes(h.id, 2) +
            ToBytes(FragmentWord(h), 2) + ToBytes(h.ttl, 1) + ToBytes(h.proto, 1)
  {
    hide ToBytes, VersionByte, FragmentWord;
    var a, b, c, d := ToBytes(VersionByte(h), 1), ToBytes(h.tos, 1), ToBytes(h.len, 2), ToBytes(h.id, 2);
    var e, f, g := ToBytes(FragmentWord(h), 2), ToBytes(h.ttl, 1), ToBytes(h.proto, 1);
    assert [] + a == a && g + [] == g;
    Assoc(a, b, c + (d + (e + (f + g))));
    Assoc(a + b, c, d + (e + (f + g)));
    Assoc(a + b + c, d, e + (f + g));
    Assoc(a + b + c + d, e, f + g);
    Assoc(a + b + c + d + e, f, g);
  }

  method ParseDatagramBytes(buffer: seq<Byte>) returns (h: IpHeader, payload: seq<Byte>, result: ParseResult)
    ensures DatagramParse(h, payload, result) == ParseDatagram(buffer)
  {
    hide ParseIpHeader;
    var p := new NetParser(buffer);
    var header, _ := ParseIpHeaderFrom(DEFAULT_IP_HEADER, p);
    h, payload := header, p.buffer;
    if |payload| != PayloadLength(h) {
      return h, payload, PacketTooShort;
    }
    result := p.error;
  }

  method SerializeDatagramBytes(h: IpHeader, payload: seq<Byte>) returns (ret: Option<seq<Byte>>)
    ensures ret == SerializeDatagram(h, payload)
  {
    hide ChecksumOf, WordSum, IpFieldsThen;
    if |payload| != PayloadLength(h) {
      return None;
    }
    var headerOut := h.(cksum := 0);
    var zeroed := WriteIpHeader(headerOut);
    if zeroed == None {
      return None;
    }
    var check := new InternetChecksum(0);
    check.Add(zeroed.value);
    var cksum := check.Value();
    headerOut := headerOut.(cksum := cksum);
    var wire := WriteIpHeader(headerOut);
    ret := Some(wire.value + payload);
  }
}
