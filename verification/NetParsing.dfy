/** Reading and writing big-endian integers on a byte buffer. */
module NetParsing {
  import opened Bytes

  datatype ParseResult =
    NoError | BadChecksum | PacketTooShort | WrongIPVersion | HeaderTooShort | TruncatedPacket | Unsupported

  function Pow256(n: nat): (r: nat)
    ensures 0 < r
  {
    if n == 0 then 1 else 256 * Pow256(n - 1)
  }

  /** The number a byte string stands for, most significant byte first. */
  function FromBytes(s: seq<Byte>): nat {
    if s == [] then 0 else FromBytes(s[..|s| - 1]) * 256 + s[|s| - 1] as int
  }

  function ToBytes(v: nat, len: nat): (s: seq<Byte>)
    ensures |s| == len
  {
    if len == 0 then [] else ToBytes(v / 256, len - 1) + [(v % 256) as Byte]
  }

  /** Writing a number and reading it back. */
  lemma {:induction false} FromToBytes(v: nat, len: nat)
    requires v < Pow256(len)
    ensures FromBytes(ToBytes(v, len)) == v
  {
    if len > 0 {
      var s := ToBytes(v, len);
      assert s[..len - 1] == ToBytes(v / 256, len - 1) && s[len - 1] as int == v % 256;
      QuotientBelow(v, Pow256(len - 1));
      hide Pow256, ToBytes;
      FromToBytes(v / 256, len - 1);
      assert FromBytes(s) == FromBytes(s[..len - 1]) * 256 + v % 256;
    }
  }

  lemma QuotientBelow(v: nat, p: nat)
    ensures v < 256 * p ==> v / 256 < p
  {
  }

  lemma {:induction false} FromBytesBound(s: seq<Byte>)
    ensures FromBytes(s) < Pow256(|s|)
  {
    if s != [] {
      FromBytesBound(s[..|s| - 1]);
    }
  }

  lemma DivUnique(v: nat, d: nat, q: nat, r: nat)
    requires 0 < d && v == d * q + r && r < d
    ensures v / d == q
  {
    var k := v / d - q;
    assert v == d * (v / d) + v % d;
    assert d * k == r - v % d;
    MultipleApart(d, k);
  }

  lemma MultipleApart(d: int, k: int)
    requires 0 < d
    ensures 0 < k ==> d <= d * k
    ensures k < 0 ==> d * k <= -d
  {
  }

  lemma DivTwice(v: nat, p: nat)
    requires 0 < p
    ensures (v / 256) / p == v / (256 * p)
  {
    var a, b := v / 256 / p, v / 256 % p;
    assert v / 256 == p * a + b;
    assert v == 256 * (p * a + b) + v % 256;
    assert v == (256 * p) * a + (256 * b + v % 256);
    DivUnique(v, 256 * p, a, 256 * b + v % 256);
  }

  /** Byte `i` is the number shifted down by the bytes that come after it. */
  lemma {:induction false} ByteAt(v: nat, len: nat, i: nat)
    requires i < len
    ensures ToBytes(v, len)[i] as int == v / Pow256(len - 1 - i) % 256
  {
    if i < len - 1 {
      ByteAt(v / 256, len - 1, i);
      DivTwice(v, Pow256(len - 2 - i));
    }
  }

  /** What is left to read, and the first error met. */
  datatype Parser = Parser(buffer: seq<Byte>, error: ParseResult) {

    function CheckSize(size: nat): Parser {
      if size > |buffer| then this.(error := PacketTooShort) else this
    }

    function AfterInt(len: nat): Parser {
      var p := CheckSize(len);
      if p.error != NoError then p else p.(buffer := buffer[len..])
    }

    /** The integer read; zero after an error. */
    function IntRead(len: nat): nat {
      if CheckSize(len).error != NoError then 0 else FromBytes(buffer[..len])
    }

    function Read8(): U8 {
      IntFits(this, 1);
      assert Pow256(1) == 0x100;
      IntRead(1)
    }

    function Read16(): U16 {
      IntFits(this, 2);
      assert Pow256(2) == 0x1_0000;
      IntRead(2)
    }

    function Read32(): U32 {
      IntFits(this, 4);
      assert Pow256(4) == 0x1_0000_0000;
      IntRead(4)
    }

    function RemovePrefix(n: nat): Parser {
      AfterInt(n)
    }
  }

  lemma IntFits(p: Parser, len: nat)
    ensures p.IntRead(len) < Pow256(len)
  {
    if p.CheckSize(len).error == NoError {
      FromBytesBound(p.buffer[..len]);
    }
  }

  lemma ReadBack8(v: U8, rest: seq<Byte>)
    ensures var p := Parser(ToBytes(v, 1) + rest, NoError);
            p.Read8() == v && p.AfterInt(1) == Parser(rest, NoError)
  {
    assert Pow256(1) == 0x100;
    ReadBack(v, 1, rest);
  }

  lemma ReadBack16(v: U16, rest: seq<Byte>)
    ensures var p := Parser(ToBytes(v, 2) + rest, NoError);
            p.Read16() == v && p.AfterInt(2) == Parser(rest, NoError)
  {
    assert Pow256(2) == 0x1_0000;
    ReadBack(v, 2, rest);
  }

  lemma ReadBack32(v: U32, rest: seq<Byte>)
    ensures var p := Parser(ToBytes(v, 4) + rest, NoError);
            p.Read32() == v && p.AfterInt(4) == Parser(rest, NoError)
  {
    assert Pow256(4) == 0x1_0000_0000;
    ReadBack(v, 4, rest);
  }

  /** Reading what was just written in front of the rest. */
  lemma ReadBack(v: nat, len: nat, rest: seq<Byte>)
    requires v < Pow256(len)
    ensures var p := Parser(ToBytes(v, len) + rest, NoError);
            p.IntRead(len) == v && p.AfterInt(len) == Parser(rest, NoError)
  {
    var b := ToBytes(v, len) + rest;
    assert b[..len] == ToBytes(v, len);
    assert b[len..] == rest;
    FromToBytes(v, len);
  }

  /** A field of `len` bytes standing at `at`, with `rest` after it. */
  predicate FieldAt(w: seq<Byte>, at: nat, v: nat, len: nat, rest: seq<Byte>) {
    at + len <= |w| && w[at..] == ToBytes(v, len) + rest
  }

  /** The field read at its place is the value, and the next one starts right after it. */
  lemma FieldRead(w: seq<Byte>, at: nat, v: nat, len: nat, rest: seq<Byte>)
    requires FieldAt(w, at, v, len, rest) && v < Pow256(len)
    ensures FromBytes(w[at..at + len]) == v && w[at + len..] == rest
  {
    FromToBytes(v, len);
    var f := ToBytes(v, len);
    hide ToBytes, FromBytes;
    assert w[at..at + len] == w[at..][..len] == f;
    assert w[at + len..] == w[at..][len..] == rest;
  }

  class NetParser {
    var buffer: seq<Byte>
    var error: ParseResult

    ghost function Value(): Parser
      reads this
    {
      Parser(buffer, error)
    }

    constructor (buffer: seq<Byte>)
      ensures Value() == Parser(buffer, NoError)
    {
      this.buffer := buffer;
      error := NoError;
    }

    method CheckSize(size: nat)
      modifies this
      ensures Value() == old(Value()).CheckSize(size)
    {
      if size > |buffer| {
        error := PacketTooShort;
      }
    }

    method ParseInt(len: nat) returns (ret: nat)
      modifies this
      ensures Value() == old(Value()).AfterInt(len)
      ensures ret == old(Value()).IntRead(len) < Pow256(len)
    {
      CheckSize(len);
      if error != NoError {
        return 0;
      }
      ret := 0;
      var i := 0;
      while i < len
        invariant 0 <= i <= len <= |buffer|
        invariant ret == FromBytes(buffer[..i])
      {
        assert buffer[..i + 1][..i] == buffer[..i];
        ret := ret * 256;
        ret := ret + buffer[i] as int;
        i := i + 1;
      }
      FromBytesBound(buffer[..len]);
      buffer := buffer[len..];
    }

    method RemovePrefix(n: nat)
      modifies this
      ensures Value() == old(Value()).RemovePrefix(n)
    {
      CheckSize(n);
      if error != NoError {
        return;
      }
      buffer := buffer[n..];
    }

    method U8() returns (ret: U8)
      modifies this
      ensures Value() == old(Value()).AfterInt(1) && ret == old(Value()).Read8()
    {
      assert Pow256(1) == 0x100;
      ret := ParseInt(1);
    }

    method U16() returns (ret: U16)
      modifies this
      ensures Value() == old(Value()).AfterInt(2) && ret == old(Value()).Read16()
    {
      assert Pow256(2) == 0x1_0000;
      ret := ParseInt(2);
    }

    method U32() returns (ret: U32)
      modifies this
      ensures Value() == old(Value()).AfterInt(4) && ret == old(Value()).Read32()
    {
      assert Pow256(4) == 0x1_0000_0000;
      ret := ParseInt(4);
    }
  }

  /** Appends an integer of `len` bytes. */
  method UnparseInt(s: seq<Byte>, val: nat, len: nat) returns (r: seq<Byte>)
    ensures r == s + ToBytes(val, len)
  {
    r := s;
    var i := 0;
    while i < len
      invariant 0 <= i <= len
      invariant r == s + ToBytes(val, len)[..i]
    {
      var theByte := val / Pow256(len - i - 1) % 256;
      ByteAt(val, len, i);
      r := r + [theByte as Byte];
      i := i + 1;
    }
  }
}
