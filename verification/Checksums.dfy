/** The Internet checksum: one's-complement sum of 16-bit words, folded to 16 bits and inverted. */
module Checksums {
  import opened Bytes

  /** Sum of the bytes as halves of big-endian words; `odd` says the first one is a low half. */
  function WordSum(data: seq<Byte>, odd: bool): nat {
    if data == [] then 0
    else (if odd then data[0] as int else data[0] as int * 256) + WordSum(data[1..], !odd)
  }

  /** Adds the carries back in until 16 bits are left. */
  function Fold(s: nat): (r: nat)
    ensures r <= 0xffff
  {
    if s > 0xffff then Fold(s / 0x1_0000 + s % 0x1_0000) else s
  }

  function ChecksumOf(s: nat): U16 {
    0xffff - Fold(s)
  }

  /** Folding keeps the remainder modulo 65535 and tells only zero from its multiples. */
  lemma {:induction false} FoldRemainder(s: nat)
    ensures Fold(s) % 0xffff == s % 0xffff
    ensures Fold(s) == 0 <==> s == 0
  {
    if s > 0xffff {
      var q, r := s / 0x1_0000, s % 0x1_0000;
      FoldRemainder(q + r);
      RemainderShift(q + r, q);
      assert s == (q + r) + 0xffff * q;
    }
  }

  lemma RemainderShift(t: nat, q: nat)
    ensures (t + 0xffff * q) % 0xffff == t % 0xffff
  {
  }

  /** The checksum of a sum is zero exactly for the positive multiples of 65535. */
  lemma ChecksumZero(s: nat)
    ensures ChecksumOf(s) == 0 <==> 0 < s && s % 0xffff == 0
  {
    FoldRemainder(s);
  }

  /** Putting the checksum in makes the sum check. */
  lemma ChecksumChecks(s: nat)
    ensures ChecksumOf(s + ChecksumOf(s)) == 0
  {
    FoldRemainder(s);
    hide Fold;
    var k := (s - s % 0xffff) / 0xffff;
    var j := (Fold(s) - Fold(s) % 0xffff) / 0xffff;
    assert s + ChecksumOf(s) == 0xffff * (k + 1 - j);
    ChecksumZero(s + ChecksumOf(s));
  }

  function Flip(odd: bool, n: nat): bool {
    if n % 2 == 0 then odd else !odd
  }

  lemma {:induction false} WordSumConcat(a: seq<Byte>, b: seq<Byte>, odd: bool)
    ensures WordSum(a + b, odd) == WordSum(a, odd) + WordSum(b, Flip(odd, |a|))
  {
    if a == [] {
      assert a + b == b;
    } else {
      assert (a + b)[1..] == a[1..] + b;
      WordSumConcat(a[1..], b, !odd);
    }
  }

  /** A sum of `n` bytes stays below half a 32-bit number for every length IPv4 can express. */
  lemma {:induction false} WordSumBound(data: seq<Byte>, odd: bool)
    ensures WordSum(data, odd) <= 0xffff * ((|data| + 1) / 2) + (if odd && |data| % 2 == 0 then 255 else 0)
  {
    if |data| >= 2 {
      WordSumBound(data[2..], odd);
      assert data[1..][1..] == data[2..];
      assert WordSum(data, odd) == WordSum(data[2..], odd) +
             (if odd then data[0] as int + data[1] as int * 256 else data[0] as int * 256 + data[1] as int);
    } else if |data| == 1 {
      assert data[1..] == [];
    }
  }

  /** Changing one byte changes the sum by less than 65535, and not by nothing. */
  lemma {:induction false} WordSumChange(data: seq<Byte>, odd: bool, i: nat, b: Byte)
    requires i < |data| && b != data[i]
    ensures WordSum(data[i := b], odd) != WordSum(data, odd)
    ensures -0xffff < WordSum(data[i := b], odd) - WordSum(data, odd) < 0xffff
  {
    if i == 0 {
      assert data[i := b][1..] == data[1..];
    } else {
      assert data[i := b][1..] == data[1..][i - 1 := b];
      WordSumChange(data[1..], !odd, i - 1, b);
    }
  }

  /** So a single changed byte never passes the check. */
  lemma ChangeDetected(s: nat, t: nat)
    requires s != t && -0xffff < t - s < 0xffff
    requires ChecksumOf(s) == 0
    ensures ChecksumOf(t) != 0
  {
    hide Fold;
    ChecksumZero(s);
    ChecksumZero(t);
  }

  lemma SumStep(data: seq<Byte>, i: nat, odd: bool)
    requires i < |data|
    ensures WordSum(data[..i + 1], odd) ==
            WordSum(data[..i], odd) + if Flip(odd, i) then data[i] as int else data[i] as int * 256
  {
    assert data[..i + 1] == data[..i] + [data[i]];
    WordSumConcat(data[..i], [data[i]], odd);
    assert [data[i]][1..] == [];
  }

  lemma EmptySum(odd: bool)
    ensures WordSum([], odd) == 0
  {
  }

  lemma ModAdd(a: nat, b: nat)
    ensures (a % 0x1_0000_0000 + b) % 0x1_0000_0000 == (a + b) % 0x1_0000_0000
  {
  }

  class InternetChecksum {
    var sum: U32
    var parity: bool

    constructor (initialSum: U32)
      ensures sum == initialSum && !parity
    {
      sum := initialSum;
      parity := false;
    }

    method Add(data: seq<Byte>)
      modifies this
      ensures sum == (old(sum) + WordSum(data, old(parity))) % 0x1_0000_0000
      ensures parity == Flip(old(parity), |data|)
    {
      hide WordSum;
      assert data[..0] == [] && WordSum([], parity) == 0 by {
        EmptySum(parity);
      }
      var i := 0;
      ghost var sum0, parity0 := sum, parity;
      while i < |data|
        invariant 0 <= i <= |data|
        invariant sum == (sum0 + WordSum(data[..i], parity0)) % 0x1_0000_0000
        invariant parity == Flip(parity0, i)
      {
        var val: int := data[i] as int;
        if !parity {
          val := val * 256;
        }
        SumStep(data, i, parity0);
        ModAdd(sum0 + WordSum(data[..i], parity0), val);
        sum := (sum + val) % 0x1_0000_0000;
        parity := !parity;
        i := i + 1;
      }
      assert data[..i] == data;
    }

    method Value() returns (v: U16)
      ensures v == ChecksumOf(sum)
    {
      var ret: nat := sum;
      while ret > 0xffff
        invariant Fold(ret) == Fold(sum)
        decreases ret
      {
        ret := ret / 0x1_0000 + ret % 0x1_0000;
      }
      v := 0xffff - ret;
    }
  }
}
