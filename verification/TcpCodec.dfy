/** The wire form of TCP segments. */
module TcpCodec {
  import opened Bytes
  import opened Segments
  import opened Checksums
  import opened NetParsing

  const TCP_HEADER_LENGTH: nat := 20

  function Zeros(n: nat): (s: seq<Byte>)
    ensures |s| == n
  {
    seq(n, _ => 0 as Byte)
  }

  function FlagBits(h: TcpHeader): (b: U8)
    ensures b < 64
  {
    (if h.urg then 32 else 0) + (if h.ack then 16 else 0) + (if h.psh then 8 else 0) +
    (if h.rst then 4 else 0) + (if h.syn then 2 else 0) + (if h.fin then 1 else 0)
  }

  /** The fields up to the checksum, followed by `rest`. */
  function FrontThen(h: TcpHeader, rest: seq<Byte>): (s: seq<Byte>)
    ensures |s| == 16 + |rest|
  {
    ToBytes(h.sport, 2) + (ToBytes(h.dport, 2) + (ToBytes(h.seqno, 4) + (ToBytes(h.ackno, 4) +
    (ToBytes(h.doff * 16 % 256, 1) + (ToBytes(FlagBits(h), 1) + (ToBytes(h.win, 2) + rest))))))
  }

  /** All fixed header fields, followed by `rest`. */
  function FieldsThen(h: TcpHeader, rest: seq<Byte>): (s: seq<Byte>)
    ensures |s| == TCP_HEADER_LENGTH + |rest|
  {
    FrontThen(h, ToBytes(h.cksum, 2) + (ToBytes(h.uptr, 2) + rest))
  }

  /** The header padded to its advertised length; a length below the minimum is an error. */
  function SerializeHeader(h: TcpHeader): Option<seq<Byte>> {
    if h.doff < 5 then None else Some(FieldsThen(h, Zeros(4 * h.doff - TCP_HEADER_LENGTH)))
  }

  /** The sum over the bytes, added in 32 bits to the pseudo-header's. */
  function SumWith(initial: U32, data: seq<Byte>): U32 {
    (initial + WordSum(data, false)) % 0x1_0000_0000
  }

  function WithChecksum(seg: TcpSegment, pseudo: U32): TcpSegment
    requires 5 <= seg.header.doff
  {
    var zeroed := SerializeHeader(seg.header.(cksum := 0)).value;
    seg.(header := seg.header.(cksum := ChecksumOf(SumWith(pseudo, zeroed + seg.payload))))
  }

  function SerializeSegment(seg: TcpSegment, pseudo: U32): Option<seq<Byte>> {
    if seg.header.doff < 5 then None
    else Some(SerializeHeader(WithChecksum(seg, pseudo).header).value + seg.payload)
  }

  datatype HeaderParse = HeaderParse(header: TcpHeader, parser: Parser, result: ParseResult)

  /** The header made of the integers read. */
  function MakeHeader(sport: U16, dport: U16, seqno: U32, ackno: U32, offset: U8, fl: U8, win: U16, cksum: U16,
                      uptr: U16): TcpHeader
  {
    TcpHeader(sport, dport, seqno, ackno, offset / 16, fl / 32 % 2 == 1, fl / 16 % 2 == 1, fl / 8 % 2 == 1,
              fl / 4 % 2 == 1, fl / 2 % 2 == 1, fl % 2 == 1, win, cksum, uptr)
  }

  /** Reads the fields one by one. */
  function ReadFields(p0: Parser): (TcpHeader, Parser) {
    var p1 := p0.AfterInt(2);
    var p2 := p1.AfterInt(2);
    var p3 := p2.AfterInt(4);
    var p4 := p3.AfterInt(4);
    var p5 := p4.AfterInt(1);
    var p6 := p5.AfterInt(1);
    var p7 := p6.AfterInt(2);
    var p8 := p7.AfterInt(2);
    (MakeHeader(p0.Read16(), p1.Read16(), p2.Read32(), p3.Read32(), p4.Read8(), p5.Read8(),
                p6.Read16(), p7.Read16(), p8.Read16()), p8.AfterInt(2))
  }

  /** Options are skipped, and a data offset below five is reported. */
  function ParseHeader(p: Parser): HeaderParse {
    var (h, p1) := ReadFields(p);
    if h.doff < 5 then HeaderParse(h, p1, HeaderTooShort)
    else
      var q := p1.RemovePrefix(h.doff * 4 - TCP_HEADER_LENGTH);
      HeaderParse(h, q, q.error)
  }

  datatype SegmentParse = SegmentParse(segment: Option<TcpSegment>, result: ParseResult)

  /** The checksum is over the whole segment; of the header's own result only the parser's error is looked at. */
  function ParseSegment(buffer: seq<Byte>, pseudo: U32): SegmentParse {
    if ChecksumOf(SumWith(pseudo, buffer)) != 0 then SegmentParse(None, BadChecksum)
    else
      var hp := ParseHeader(Parser(buffer, NoError));
      SegmentParse(Some(TcpSegment(hp.header, hp.parser.buffer)), hp.parser.error)
  }

  // ---- headers ----

  lemma Assoc(a: seq<Byte>, b: seq<Byte>, c: seq<Byte>)
    ensures (a + b) + c == a + (b + c)
  {
  }

  lemma FrontAppend(h: TcpHeader, x: seq<Byte>, y: seq<Byte>)
    ensures FrontThen(h, x) + y == FrontThen(h, x + y)
  {
    hide ToBytes, FlagBits;
    var t7 := ToBytes(h.win, 2) + x;
    var t6 := ToBytes(FlagBits(h), 1) + t7;
    var t5 := ToBytes(h.doff * 16 % 256, 1) + t6;
    var t4 := ToBytes(h.ackno, 4) + t5;
    var t3 := ToBytes(h.seqno, 4) + t4;
    var t2 := ToBytes(h.dport, 2) + t3;
    Assoc(ToBytes(h.win, 2), x, y);
    Assoc(ToBytes(FlagBits(h), 1), t7, y);
    Assoc(ToBytes(h.doff * 16 % 256, 1), t6, y);
    Assoc(ToBytes(h.ackno, 4), t5, y);
    Assoc(ToBytes(h.seqno, 4), t4, y);
    Assoc(ToBytes(h.dport, 2), t3, y);
    Assoc(ToBytes(h.sport, 2), t2, y);
  }

  lemma FieldsAppend(h: TcpHeader, x: seq<Byte>, y: seq<Byte>)
    ensures FieldsThen(h, x) + y == FieldsThen(h, x + y)
  {
    hide ToBytes, FrontThen;
    var t := ToBytes(h.uptr, 2) + x;
    FrontAppend(h, ToBytes(h.cksum, 2) + t, y);
    Assoc(ToBytes(h.cksum, 2), t, y);
    Assoc(ToBytes(h.uptr, 2), x, y);
  }

  function Digit(b: bool): (d: nat)
    ensures d <= 1
  {
    if b then 1 else 0
  }

  /** Each flag is one binary digit of the flag byte. */
  lemma FlagsBack(h: TcpHeader)
    ensures var fl := FlagBits(h);
            && (fl / 32 % 2 == 1) == h.urg && (fl / 16 % 2 == 1) == h.ack && (fl / 8 % 2 == 1) == h.psh
            && (fl / 4 % 2 == 1) == h.rst && (fl / 2 % 2 == 1) == h.syn && (fl % 2 == 1) == h.fin
  {
    var fl := FlagBits(h);
    var d5, d4 := Digit(h.urg), Digit(h.ack);
    var d3, d2, d1 := Digit(h.psh), Digit(h.rst), Digit(h.syn);
    var f4 := 2 * d5 + d4;
    var f3 := 2 * f4 + d3;
    var f2 := 2 * f3 + d2;
    var f1 := 2 * f2 + d1;
    assert fl == 2 * f1 + Digit(h.fin);
    assert fl / 2 == f1 && fl / 4 == f2 && fl / 8 == f3 && fl / 16 == f4 && fl / 32 == d5;
  }

  lemma MakeHeaderBack(h: TcpHeader)
    requires h.doff <= 15
    ensures MakeHeader(h.sport, h.dport, h.seqno, h.ackno, h.doff * 16 % 256, FlagBits(h), h.win, h.cksum, h.uptr) == h
  {
    hide FlagBits;
    FlagsBack(h);
  }

  /** Reading the fields in turn gives back what was written. */
  lemma FieldsReadBack(h: TcpHeader, rest: seq<Byte>)
    requires h.doff <= 15
    ensures ReadFields(Parser(FieldsThen(h, rest), NoError)) == (h, Parser(rest, NoError))
  {
    MakeHeaderBack(h);
    hide ToBytes, FlagBits, Parser.Read8, Parser.Read16, Parser.Read32, Parser.AfterInt, MakeHeader;
    var t9 := ToBytes(h.uptr, 2) + rest;
    var t8 := ToBytes(h.cksum, 2) + t9;
    var t7 := ToBytes(h.win, 2) + t8;
    var t6 := ToBytes(FlagBits(h), 1) + t7;
    var t5 := ToBytes(h.doff * 16 % 256, 1) + t6;
    var t4 := ToBytes(h.ackno, 4) + t5;
    var t3 := ToBytes(h.seqno, 4) + t4;
    var t2 := ToBytes(h.dport, 2) + t3;
    ReadBack16(h.sport, t2);
    ReadBack16(h.dport, t3);
    ReadBack32(h.seqno, t4);
    ReadBack32(h.ackno, t5);
    ReadBack8(h.doff * 16 % 256, t6);
    ReadBack8(FlagBits(h), t7);
    ReadBack16(h.win, t8);
    ReadBack16(h.cksum, t9);
    ReadBack16(h.uptr, rest);
  }

  /** The layout of section 3.1 of RFC 793: every field at its place, most significant byte first. */
  lemma HeaderLayout(h: TcpHeader, rest: seq<Byte>)
    requires h.doff <= 15
    ensures var w := FieldsThen(h, rest);
            && FromBytes(w[0..2]) == h.sport && FromBytes(w[2..4]) == h.dport
            && FromBytes(w[4..8]) == h.seqno && FromBytes(w[8..12]) == h.ackno
            && FromBytes(w[12..13]) == 16 * h.doff && FromBytes(w[13..14]) == FlagBits(h)
            && FromBytes(w[14..16]) == h.win && FromBytes(w[16..18]) == h.cksum && FromBytes(w[18..20]) == h.uptr
            && w[20..] == rest
  {
    assert Pow256(2) == 0x1_0000;
    var t9 := ToBytes(h.uptr, 2) + rest;
    var t8 := ToBytes(h.cksum, 2) + t9;
    FrontLayout(h, t8);
    hide ToBytes, FromBytes, Pow256, FrontThen, FlagBits;
    var w := FieldsThen(h, rest);
    FieldRead(w, 16, h.cksum, 2, t9);
    FieldRead(w, 18, h.uptr, 2, rest);
  }

  lemma FrontLayout(h: TcpHeader, x: seq<Byte>)
    requires h.doff <= 15
    ensures var w := FrontThen(h, x);
            && FromBytes(w[0..2]) == h.sport && FromBytes(w[2..4]) == h.dport
            && FromBytes(w[4..8]) == h.seqno && FromBytes(w[8..12]) == h.ackno
            && FromBytes(w[12..13]) == 16 * h.doff && FromBytes(w[13..14]) == FlagBits(h)
            && FromBytes(w[14..16]) == h.win && w[16..] == x
  {
    assert Pow256(1) == 0x100 && Pow256(2) == 0x1_0000 && Pow256(4) == 0x1_0000_0000;
    var d := h.doff * 16 % 256;
    assert d == 16 * h.doff;
    hide ToBytes, FromBytes, FlagBits, Pow256;
    var w := FrontThen(h, x);
    var t7 := ToBytes(h.win, 2) + x;
    var t6 := ToBytes(FlagBits(h), 1) + t7;
    var t5 := ToBytes(d, 1) + t6;
    var t4 := ToBytes(h.ackno, 4) + t5;
    var t3 := ToBytes(h.seqno, 4) + t4;
    var t2 := ToBytes(h.dport, 2) + t3;
    assert FieldAt(w, 0, h.sport, 2, t2);
    hide FrontThen;
    FieldRead(w, 0, h.sport, 2, t2);
    FieldRead(w, 2, h.dport, 2, t3);
    FieldRead(w, 4, h.seqno, 4, t4);
    FieldRead(w, 8, h.ackno, 4, t5);
    FieldRead(w, 12, d, 1, t6);
    FieldRead(w, 13, FlagBits(h), 1, t7);
    FieldRead(w, 14, h.win, 2, x);
  }

  lemma HeaderRoundTrip(h: TcpHeader, payload: seq<Byte>)
    requires 5 <= h.doff <= 15
    ensures ParseHeader(Parser(SerializeHeader(h).value + payload, NoError)) ==
            HeaderParse(h, Parser(payload, NoError), NoError)
  {
    hide FieldsThen, ReadFields;
    var z := Zeros(4 * h.doff - TCP_HEADER_LENGTH);
    FieldsAppend(h, z, payload);
    FieldsReadBack(h, z + payload);
    assert (z + payload)[|z|..] == payload;
  }

  // ---- segments ----

  /** A field written at an even place adds its value to the sum. */
  lemma FieldSum(v: U16, rest: seq<Byte>)
    ensures WordSum(ToBytes(v, 2) + rest, false) == v + WordSum(rest, false)
  {
    var b := ToBytes(v, 2);
    ByteAt(v, 2, 0);
    ByteAt(v, 2, 1);
    assert Pow256(1) == 256 && Pow256(0) == 1;
    WordSumConcat(b, rest, false);
    assert b[1..][1..] == [];
    assert WordSum(b, false) == b[0] as int * 256 + b[1] as int;
  }

  /** The checksum field adds its value to the sum of the header without it. */
  lemma ChecksumFieldSum(h: TcpHeader, v: U16, rest: seq<Byte>)
    ensures WordSum(FieldsThen(h.(cksum := v), rest), false) == WordSum(FieldsThen(h.(cksum := 0), rest), false) + v
  {
    FrontSum(h, v, ToBytes(h.uptr, 2) + rest);
    FrontSum(h, 0, ToBytes(h.uptr, 2) + rest);
    hide ToBytes, WordSum, FrontThen;
    FrontIgnoresChecksum(h, v, ToBytes(v, 2) + (ToBytes(h.uptr, 2) + rest));
    FrontIgnoresChecksum(h, 0, ToBytes(0, 2) + (ToBytes(h.uptr, 2) + rest));
  }

  lemma FrontIgnoresChecksum(h: TcpHeader, v: U16, x: seq<Byte>)
    ensures FrontThen(h.(cksum := v), x) == FrontThen(h, x)
  {
    hide ToBytes;
  }

  lemma FrontSum(h: TcpHeader, v: U16, tail: seq<Byte>)
    ensures WordSum(FrontThen(h, ToBytes(v, 2) + tail), false) ==
            WordSum(FrontThen(h, []), false) + v + WordSum(tail, false)
  {
    hide ToBytes, FrontThen, WordSum;
    var x := ToBytes(v, 2) + tail;
    FrontAppend(h, [], x);
    assert [] + x == x;
    WordSumConcat(FrontThen(h, []), x, false);
    FieldSum(v, tail);
  }

  /** Segments of any size IPv4 can carry, with any pseudo-header sum below 2^31, are summed without overflow. */
  lemma SumFits(initial: U32, data: seq<Byte>)
    requires |data| <= 0xffff && initial <= 0x8000_0000
    ensures SumWith(initial, data) == initial + WordSum(data, false)
  {
    WordSumBound(data, false);
    hide WordSum;
  }

  ghost predicate Sendable(seg: TcpSegment, pseudo: U32) {
    5 <= seg.header.doff <= 15 && 4 * seg.header.doff + |seg.payload| <= 0xffff && pseudo <= 0x8000_0000
  }

  /** The serialized segment passes its own check. */
  lemma SerializedChecks(seg: TcpSegment, pseudo: U32)
    requires Sendable(seg, pseudo)
    ensures var wire := SerializeSegment(seg, pseudo).value;
            && |wire| == 4 * seg.header.doff + |seg.payload|
            && ChecksumOf(SumWith(pseudo, wire)) == 0
  {
    hide ToBytes, FieldsThen, WordSum, ChecksumOf, SumWith;
    var h := seg.header;
    var z := Zeros(4 * h.doff - TCP_HEADER_LENGTH);
    var zeroed := FieldsThen(h.(cksum := 0), z) + seg.payload;
    var v := ChecksumOf(SumWith(pseudo, zeroed));
    var wire := FieldsThen(h.(cksum := v), z) + seg.payload;
    assert SerializeSegment(seg, pseudo) == Some(wire);
    SumFits(pseudo, zeroed);
    SumFits(pseudo, wire);
    FieldsAppend(h.(cksum := 0), z, seg.payload);
    FieldsAppend(h.(cksum := v), z, seg.payload);
    ChecksumFieldSum(h, v, z + seg.payload);
    ChecksumChecks(pseudo + WordSum(zeroed, false));
  }

  /** The same segment, checksum apart. */
  predicate Resummed(seg: TcpSegment, back: TcpSegment) {
    back.payload == seg.payload && back.header == seg.header.(cksum := back.header.cksum)
  }

  /** Serializing and parsing a segment gives it back, checksum filled in. */
  lemma SegmentRoundTrip(seg: TcpSegment, pseudo: U32)
    requires Sendable(seg, pseudo)
    ensures ParseSegment(SerializeSegment(seg, pseudo).value, pseudo) ==
            SegmentParse(Some(WithChecksum(seg, pseudo)), NoError)
    ensures Resummed(seg, WithChecksum(seg, pseudo))
  {
    hide SerializeHeader, ChecksumOf, SumWith, ParseHeader;
    SerializedChecks(seg, pseudo);
    HeaderRoundTrip(WithChecksum(seg, pseudo).header, seg.payload);
  }

  /** Any single changed byte is caught by the checksum. */
  lemma SegmentCorruption(seg: TcpSegment, pseudo: U32, i: nat, b: Byte)
    requires Sendable(seg, pseudo)
    requires var wire := SerializeSegment(seg, pseudo).value; i < |wire| && wire[i] != b
    ensures ParseSegment(SerializeSegment(seg, pseudo).value[i := b], pseudo) == SegmentParse(None, BadChecksum)
  {
    hide WithChecksum, SerializeHeader, ChecksumOf, SumWith, WordSum;
    SerializedChecks(seg, pseudo);
    var wire := SerializeSegment(seg, pseudo).value;
    SumFits(pseudo, wire);
    SumFits(pseudo, wire[i := b]);
    WordSumChange(wire, false, i, b);
    ChangeDetected(SumWith(pseudo, wire), SumWith(pseudo, wire[i := b]));
  }

  /** The result the header parser itself reports, behind the checksum test. */
  function StrictResult(buffer: seq<Byte>, pseudo: U32): ParseResult {
    if ChecksumOf(SumWith(pseudo, buffer)) != 0 then BadChecksum else ParseHeader(Parser(buffer, NoError)).result
  }

  /** The header's own verdict is dropped: the two differ exactly on a right checksum whose thirteenth byte is
      missing or announces a data offset below five. */
  lemma HeaderVerdictDropped(buffer: seq<Byte>, pseudo: U32)
    ensures ParseSegment(buffer, pseudo).result == StrictResult(buffer, pseudo) <==>
            ChecksumOf(SumWith(pseudo, buffer)) != 0 || (13 <= |buffer| && 5 <= buffer[12] as int / 16)
  {
    hide ChecksumOf, SumWith, ReadFields;
    ReadFieldsError(Parser(buffer, NoError));
    OffsetRead(buffer);
  }

  lemma OffsetRead(buffer: seq<Byte>)
    ensures ReadFields(Parser(buffer, NoError)).0.doff == if 13 <= |buffer| then buffer[12] as int / 16 else 0
  {
    hide FromBytes;
    var p := Parser(buffer, NoError).AfterInt(2).AfterInt(2).AfterInt(4).AfterInt(4);
    assert 12 <= |buffer| ==> p == Parser(buffer[12..], NoError);
    if 13 <= |buffer| {
      assert p.Read8() == FromBytes(buffer[12..][..1]) == buffer[12] as int by {
        OneByte(buffer[12..][..1]);
      }
    }
  }

  lemma OneByte(s: seq<Byte>)
    requires |s| == 1
    ensures FromBytes(s) == s[0] as int
  {
  }

  lemma ReadFieldsError(p: Parser)
    requires p.error == NoError
    ensures ReadFields(p).1.error == NoError || ReadFields(p).1.error == PacketTooShort
  {
    hide MakeHeader, Parser.Read8, Parser.Read16, Parser.Read32;
  }

  /** The checksum is right exactly if the pseudo-header's sum and the buffer's words add up to a positive multiple of
      65535. */
  lemma ChecksumJudged(buffer: seq<Byte>, pseudo: U32)
    requires |buffer| <= 0xffff && pseudo <= 0x8000_0000
    ensures var sum := pseudo + WordSum(buffer, false);
            ParseSegment(buffer, pseudo).result == BadChecksum <==> !(0 < sum && sum % 0xffff == 0)
  {
    hide ChecksumOf, SumWith, WordSum, ParseHeader;
    SumFits(pseudo, buffer);
    ChecksumZero(SumWith(pseudo, buffer));
    SegmentAccepted(buffer, pseudo);
  }

  /** What the header parser reports of a buffer, byte by byte; a buffer that ends before the data offset counts as one
      with an offset of zero. */
  lemma HeaderVerdictMeans(buffer: seq<Byte>)
    ensures ParseHeader(Parser(buffer, NoError)).result ==
            if |buffer| < 13 || buffer[12] as int / 16 < 5 then HeaderTooShort
            else if |buffer| < 4 * (buffer[12] as int / 16) then PacketTooShort
            else NoError
  {
    hide ReadFields;
    ReadFieldsError(Parser(buffer, NoError));
    ReadFieldsRest(buffer);
    OffsetRead(buffer);
  }

  /** Exactly which headers are written, and how they are filled up to the length they announce. */
  lemma HeaderPadded(h: TcpHeader)
    ensures SerializeHeader(h).None? <==> h.doff < 5
    ensures 5 <= h.doff ==>
              var w := SerializeHeader(h).value;
              |w| == 4 * h.doff && w[..20] == FieldsThen(h, []) && forall i :: 20 <= i < |w| ==> w[i] == 0
  {
    if 5 <= h.doff {
      hide FrontThen, ToBytes;
      var z := Zeros(4 * h.doff - TCP_HEADER_LENGTH);
      FieldsAppend(h, [], z);
      assert [] + z == z;
    }
  }

  /** Exactly which buffers are taken as segments, and where the payload starts, byte by byte. */
  lemma SegmentAccepted(buffer: seq<Byte>, pseudo: U32)
    ensures var r := ParseSegment(buffer, pseudo);
            var skipped := if 13 <= |buffer| then 4 * (buffer[12] as int / 16) else 0;
            if ChecksumOf(SumWith(pseudo, buffer)) != 0 then r == SegmentParse(None, BadChecksum)
            else
              && r.segment.Some? && (r.result == NoError || r.result == PacketTooShort)
              && (r.result == NoError <==> Max(20, skipped) <= |buffer|)
              && (r.result == NoError ==> r.segment.value.payload == buffer[Max(20, skipped)..])
  {
    hide ChecksumOf, SumWith, ReadFields;
    ReadFieldsError(Parser(buffer, NoError));
    ReadFieldsRest(buffer);
    OffsetRead(buffer);
  }

  lemma ReadFieldsRest(buffer: seq<Byte>)
    ensures ReadFields(Parser(buffer, NoError)).1.error == NoError <==> 20 <= |buffer|
    ensures 20 <= |buffer| ==> ReadFields(Parser(buffer, NoError)).1.buffer == buffer[20..]
  {
    hide MakeHeader, Parser.Read8, Parser.Read16, Parser.Read32;
  }

  /** A segment that claims a header below the minimum is accepted all the same if its checksum is right. */
  lemma ShortHeaderAccepted(h: TcpHeader, payload: seq<Byte>)
    requires h.doff < 5 && |payload| <= 0xffff - TCP_HEADER_LENGTH
    ensures var v := ChecksumOf(SumWith(0, FieldsThen(h.(cksum := 0), payload)));
            var wire := FieldsThen(h.(cksum := v), payload);
            && ParseSegment(wire, 0) == SegmentParse(Some(TcpSegment(h.(cksum := v), payload)), NoError)
            && StrictResult(wire, 0) == HeaderTooShort
  {
    hide FieldsThen, WordSum, ChecksumOf, SumWith, ReadFields;
    var zeroed := FieldsThen(h.(cksum := 0), payload);
    var v := ChecksumOf(SumWith(0, zeroed));
    var wire := FieldsThen(h.(cksum := v), payload);
    SumFits(0, zeroed);
    SumFits(0, wire);
    ChecksumFieldSum(h, v, payload);
    ChecksumChecks(WordSum(zeroed, false));
    FieldsReadBack(h.(cksum := v), payload);
  }

  // ---- the methods ----

  method ParseHeaderFrom(p: NetParser) returns (h: TcpHeader, result: ParseResult)
    modifies p
    ensures HeaderParse(h, p.Value(), result) == ParseHeader(old(p.Value()))
  {
    hide Parser.Read8, Parser.Read16, Parser.Read32, Parser.AfterInt, MakeHeader;
    var sport := p.U16();
    var dport := p.U16();
    var seqno := p.U32();
    var ackno := p.U32();
    var offset := p.U8();
    var fl := p.U8();
    var win := p.U16();
    var cksum := p.U16();
    var uptr := p.U16();
    h := MakeHeader(sport, dport, seqno, ackno, offset, fl, win, cksum, uptr);
    if h.doff < 5 {
      result := HeaderTooShort;
      return;
    }
    p.RemovePrefix(h.doff * 4 - TCP_HEADER_LENGTH);
    result := p.error;
  }

  method WriteHeader(h: TcpHeader) returns (ret: Option<seq<Byte>>)
    ensures ret == SerializeHeader(h)
  {
    if h.doff < 5 {
      return None;
    }
    hide ToBytes, FlagBits;
    var s := UnparseInt([], h.sport, 2);
    s := UnparseInt(s, h.dport, 2);
    s := UnparseInt(s, h.seqno, 4);
    s := UnparseInt(s, h.ackno, 4);
    s := UnparseInt(s, h.doff * 16 % 256, 1);
    s := UnparseInt(s, FlagBits(h), 1);
    s := UnparseInt(s, h.win, 2);
    s := UnparseInt(s, h.cksum, 2);
    s := UnparseInt(s, h.uptr, 2);
    WrittenFields(h, s);
    FieldsAppend(h, [], Zeros(4 * h.doff - TCP_HEADER_LENGTH));
    assert [] + Zeros(4 * h.doff - TCP_HEADER_LENGTH) == Zeros(4 * h.doff - TCP_HEADER_LENGTH);
    ret := Some(s + Zeros(4 * h.doff - TCP_HEADER_LENGTH));
  }

  lemma WrittenFields(h: TcpHeader, s: seq<Byte>)
    requires s == [] + ToBytes(h.sport, 2) + ToBytes(h.dport, 2) + ToBytes(h.seqno, 4) + ToBytes(h.ackno, 4) +
                  ToBytes(h.doff * 16 % 256, 1) + ToBytes(FlagBits(h), 1) + ToBytes(h.win, 2) + ToBytes(h.cksum, 2) +
                  ToBytes(h.uptr, 2)
    ensures s == FieldsThen(h, [])
  {
    hide ToBytes, FlagBits;
    var t := ToBytes(h.uptr, 2) + [];
    assert t == ToBytes(h.uptr, 2);
    FrontAppend(h, [], ToBytes(h.cksum, 2));
    FrontAppend(h, ToBytes(h.cksum, 2), ToBytes(h.uptr, 2));
    assert [] + ToBytes(h.cksum, 2) == ToBytes(h.cksum, 2);
    FrontFlat(h);
  }

  lemma FrontFlat(h: TcpHeader)
    ensures FrontThen(h, []) ==
            [] + ToBytes(h.sport, 2) + ToBytes(h.dport, 2) + ToBytes(h.seqno, 4) + ToBytes(h.ackno, 4) +
            ToBytes(h.doff * 16 % 256, 1) + ToBytes(FlagBits(h), 1) + ToBytes(h.win, 2)
  {
    hide ToBytes, FlagBits;
    var a, b, c, d := ToBytes(h.sport, 2), ToBytes(h.dport, 2), ToBytes(h.seqno, 4), ToBytes(h.ackno, 4);
    var e, f, g := ToBytes(h.doff * 16 % 256, 1), ToBytes(FlagBits(h), 1), ToBytes(h.win, 2);
    assert [] + a == a && g + [] == g;
    Assoc(a, b, c + (d + (e + (f + g))));
    Assoc(a + b, c, d + (e + (f + g)));
    Assoc(a + b + c, d, e + (f + g));
    Assoc(a + b + c + d, e, f + g);
    Assoc(a + b + c + d + e, f, g);
  }

  method ParseSegmentBytes(buffer: seq<Byte>, pseudo: U32) returns (seg: Option<TcpSegment>, result: ParseResult)
    ensures SegmentParse(seg, result) == ParseSegment(buffer, pseudo)
  {
    hide ChecksumOf, WordSum, ParseHeader;
    var check := new InternetChecksum(pseudo);
    check.Add(buffer);
    var value := check.Value();
    if value != 0 {
      return None, BadChecksum;
    }
    var p := new NetParser(buffer);
    var h, _ := ParseHeaderFrom(p);
    return Some(TcpSegment(h, p.buffer)), p.error;
  }

  method SerializeSegmentBytes(seg: TcpSegment, pseudo: U32) returns (ret: Option<seq<Byte>>)
    ensures ret == SerializeSegment(seg, pseudo)
  {
    hide ChecksumOf, WordSum, SerializeHeader;
    var headerOut := seg.header.(cksum := 0);
    var zeroed := WriteHeader(headerOut);
    HeaderWritten(headerOut);
    if zeroed == None {
      return None;
    }
    var check := new InternetChecksum(pseudo);
    check.Add(zeroed.value);
    check.Add(seg.payload);
    WordSumConcat(zeroed.value, seg.payload, false);
    ModAdd(pseudo + WordSum(zeroed.value, false), WordSum(seg.payload, Flip(false, |zeroed.value|)));
    var cksum := check.Value();
    headerOut := headerOut.(cksum := cksum);
    var wire := WriteHeader(headerOut);
    HeaderWritten(headerOut);
    ret := Some(wire.value + seg.payload);
  }

  lemma HeaderWritten(h: TcpHeader)
    ensures SerializeHeader(h).None? <==> h.doff < 5
    ensures SerializeHeader(h).Some? ==> |SerializeHeader(h).value| == 4 * h.doff
  {
  }
}
