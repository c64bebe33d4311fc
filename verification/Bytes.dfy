/** Machine types and the ring-buffer arithmetic shared by the two circular buffers. */
module Bytes {

  newtype Byte = x: int | 0 <= x < 256

  const TWO16: int := 0x1_0000
  const TWO32: int := 0x1_0000_0000

  type U8 = x: int | 0 <= x < 256
  type U16 = x: int | 0 <= x < TWO16
  type U32 = x: int | 0 <= x < TWO32

  datatype Option<+T> = None | Some(value: T)

  function Min(a: int, b: int): (m: int)
    ensures m <= a && m <= b && (m == a || m == b)
  {
    if a <= b then a else b
  }

  function Max(a: int, b: int): (m: int)
    ensures m >= a && m >= b && (m == a || m == b)
  {
    if a >= b then a else b
  }

  function Sum(ns: seq<nat>): nat {
    if ns == [] then 0 else ns[0] + Sum(ns[1..])
  }

  lemma SliceOfSlice<T>(s: seq<T>, a: int, b: int, c: int, d: int)
    requires 0 <= a <= b <= |s| && 0 <= c <= d <= b - a
    ensures s[a..b][c..d] == s[a + c..a + d]
  {
    forall k | 0 <= k < d - c
      ensures s[a..b][c..d][k] == s[a + c..a + d][k]
    {
      assert s[a..b][c..d][k] == s[a..b][c + k] == s[a + c + k];
    }
  }

  /** The array position `k` places after `start` in a ring of `cap` slots. */
  function Slot(start: nat, k: nat, cap: nat): (r: nat)
    requires start < cap && k <= cap
    ensures r < cap
  {
    if start + k < cap then start + k else start + k - cap
  }

  lemma SlotIsModulo(start: nat, k: nat, cap: nat)
    requires start < cap && k <= cap
    ensures (start + k) % cap == Slot(start, k, cap)
  {
    var a := start + k;
    var q := a / cap;
    assert a == cap * q + a % cap;
    Multiples(cap, q);
  }

  lemma Multiples(cap: nat, q: nat)
    requires 0 < cap
    ensures q == 0 ==> cap * q == 0
    ensures q == 1 ==> cap * q == cap
    ensures 2 <= q ==> 2 * cap <= cap * q
  {
  }

  /** `ring` with `data` written over it from `at` on. */
  function Splice(ring: seq<Byte>, at: nat, data: seq<Byte>): (r: seq<Byte>)
    requires at + |data| <= |ring|
    ensures |r| == |ring|
  {
    ring[..at] + data + ring[at + |data|..]
  }

  /** `ring` seen from `n` places on. */
  function Rotate(ring: seq<Byte>, n: nat): (r: seq<Byte>)
    requires n <= |ring|
    ensures |r| == |ring|
  {
    ring[n..] + ring[..n]
  }

  lemma RotateTwice(ring: seq<Byte>, m: nat, n: nat)
    requires m < |ring| && n <= |ring|
    ensures Rotate(Rotate(ring, m), n) == Rotate(ring, Slot(m, n, |ring|))
  {
    var c := |ring|;
    var s := Rotate(ring, m);
    var t := Slot(m, n, c);
    assert forall k :: 0 <= k < c ==> s[k] == ring[Slot(m, k, c)];
    forall k | 0 <= k < c
      ensures Rotate(s, n)[k] == Rotate(ring, t)[k]
    {
      assert Rotate(s, n)[k] == s[if n + k < c then n + k else n + k - c];
      assert Rotate(ring, t)[k] == ring[Slot(t, k, c)];
    }
  }

  /** `memcpy`: overwrites `|src|` consecutive elements of `dst`. */
  method Memcpy(dst: array<Byte>, at: nat, src: seq<Byte>)
    requires at + |src| <= dst.Length
    modifies dst
    ensures forall i :: 0 <= i < dst.Length ==>
                          dst[i] == if at <= i < at + |src| then src[i - at] else old(dst[i])
  {
    forall i | 0 <= i < |src| {
      dst[at + i] := src[i];
    }
  }
}
