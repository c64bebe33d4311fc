/** 32-bit sequence numbers relative to an initial number, and their 64-bit absolute form. */
module WrappingIntegers {
  import opened Bytes

  const TWO31: int := 0x8000_0000

  /** The point `b` steps past `a`. */
  function Advance(a: U32, b: U32): (r: U32)
    ensures r == a + b || r == a + b - TWO32
  {
    (a + b) % 0x1_0000_0000
  }

  /** The point `b` steps before `a`: adds the two's complement of `b`. */
  function Retreat(a: U32, b: U32): (r: U32)
    ensures r == a - b || r == a - b + TWO32
  {
    Advance(a, (0x1_0000_0000 - b) % 0x1_0000_0000)
  }

  /** The absolute number, cut to 32 bits, past the initial sequence number. */
  function Wrap(n: nat, isn: U32): U32 {
    Advance(isn, n % 0x1_0000_0000)
  }

  /** The absolute number a 32-bit one stands for, judged by a recent absolute number. */
  function Unwrap(n: U32, isn: U32, checkpoint: nat): nat {
    var cp := Wrap(checkpoint, isn);
    var diffP := if cp < n then n - cp else (0xffff_ffff - cp + n + 1) % 0x1_0000_0000;
    var diffN := if cp < n then 0xffff_ffff - n + cp + 1 else cp - n;
    if diffP < diffN || checkpoint < diffN then checkpoint + diffP else checkpoint - diffN
  }

  function Distance(a: int, b: int): nat {
    if a <= b then b - a else a - b
  }

  /** Numbers with the same 32-bit form are equal or at least 2^32 apart. */
  lemma WrapSpaced(a: nat, b: nat, isn: U32)
    requires Wrap(a, isn) == Wrap(b, isn)
    ensures a == b || Distance(a, b) >= TWO32
  {
    assert a % 0x1_0000_0000 == b % 0x1_0000_0000;
  }

  lemma WrapShift(a: nat, isn: U32, k: nat)
    requires k < TWO32
    ensures Advance(Wrap(a, isn), k) == Wrap(a + k, isn)
  {
    var m := a % 0x1_0000_0000;
    assert (a + k) % 0x1_0000_0000 == if m + k < TWO32 then m + k else m + k - TWO32;
  }

  lemma AdvanceRetreat(a: U32, k: U32)
    ensures Retreat(Advance(a, k), k) == a
  {
  }

  /** The result has the right 32-bit form. */
  lemma UnwrapIsPreimage(n: U32, isn: U32, checkpoint: nat)
    ensures Wrap(Unwrap(n, isn, checkpoint), isn) == n
  {
    hide Wrap, Advance;
    var u := Unwrap(n, isn, checkpoint);
    if checkpoint <= u {
      WrapShift(checkpoint, isn, u - checkpoint);
    } else {
      WrapShift(u, isn, checkpoint - u);
    }
  }

  /** The result is within 2^31 of the checkpoint unless nothing below the checkpoint qualifies. */
  lemma UnwrapNear(n: U32, isn: U32, checkpoint: nat)
    ensures var u := Unwrap(n, isn, checkpoint);
            if u < checkpoint then checkpoint - u <= TWO31 else u - checkpoint < TWO31 || u < TWO32
  {
    hide Wrap;
  }

  /** Unwrapping picks a preimage of `n`, and no preimage is nearer the checkpoint. */
  lemma UnwrapClosest(n: U32, isn: U32, checkpoint: nat)
    ensures Wrap(Unwrap(n, isn, checkpoint), isn) == n
    ensures forall v: nat :: Wrap(v, isn) == n ==>
                               Distance(Unwrap(n, isn, checkpoint), checkpoint) <= Distance(v, checkpoint)
  {
    hide Wrap, Unwrap;
    var u := Unwrap(n, isn, checkpoint);
    UnwrapIsPreimage(n, isn, checkpoint);
    UnwrapNear(n, isn, checkpoint);
    forall v: nat | Wrap(v, isn) == n
      ensures Distance(u, checkpoint) <= Distance(v, checkpoint)
    {
      WrapSpaced(u, v, isn);
    }
  }

  /** Exactly which absolute numbers survive the trip through 32 bits. */
  lemma UnwrapRecovers(v: nat, isn: U32, checkpoint: nat)
    ensures Unwrap(Wrap(v, isn), isn, checkpoint) == v <==>
            if v < checkpoint then checkpoint - v <= TWO31 else v - checkpoint < TWO31 || v < TWO32
  {
    hide Wrap, Unwrap;
    var n := Wrap(v, isn);
    UnwrapIsPreimage(n, isn, checkpoint);
    UnwrapNear(n, isn, checkpoint);
    WrapSpaced(Unwrap(n, isn, checkpoint), v, isn);
  }
}
