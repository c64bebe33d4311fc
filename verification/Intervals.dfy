/** The ordered map of index intervals, held as the sequence of its entries in key order. */
module Intervals {

  datatype Interval = Interval(first: nat, size: nat) {
    function End(): nat {
      first + size
    }
    predicate Has(i: int) {
      first <= i < End()
    }
  }

  /** Sorted, non-empty, and with a gap between neighbours: disjoint and not even touching. */
  ghost predicate Separated(m: seq<Interval>) {
    && (forall k :: 0 <= k < |m| ==> 0 < m[k].size)
    && (forall j, k :: 0 <= j < k < |m| ==> m[j].End() < m[k].first)
  }

  ghost predicate Covers(m: seq<Interval>, i: int) {
    exists k :: 0 <= k < |m| && m[k].Has(i)
  }

  function Total(m: seq<Interval>): nat {
    if m == [] then 0 else m[0].size + Total(m[1..])
  }

  predicate Between(a: int, i: int, b: int) {
    a <= i < b
  }

  ghost function Range(a: nat, b: nat): set<nat> {
    set i: nat | a <= i < b && Between(a, i, b)
  }

  lemma {:induction false} RangeSize(a: nat, b: nat)
    requires a <= b
    ensures |Range(a, b)| == b - a
    decreases b
  {
    if a < b {
      RangeSize(a, b - 1);
      assert Range(a, b) == Range(a, b - 1) + {b - 1};
    } else {
      assert Range(a, b) == {};
    }
  }

  /** Every index covered by some entry. */
  ghost function Covered(m: seq<Interval>): set<nat> {
    if m == [] then {} else Range(m[0].first, m[0].End()) + Covered(m[1..])
  }

  lemma {:induction false} CoveredIsCovers(m: seq<Interval>, i: nat)
    ensures i in Covered(m) <==> Covers(m, i)
  {
    if m != [] {
      CoveredIsCovers(m[1..], i);
      if Covers(m[1..], i) {
        var k :| 0 <= k < |m[1..]| && m[1..][k].Has(i);
        assert m[k + 1].Has(i);
      }
      if Covers(m, i) {
        var k :| 0 <= k < |m| && m[k].Has(i);
        if k > 0 {
          assert m[1..][k - 1].Has(i);
        }
      }
    }
  }

  /** The counter of used bytes counts each covered index once. */
  lemma {:induction false} TotalCountsCovered(m: seq<Interval>)
    requires Separated(m)
    ensures |Covered(m)| == Total(m)
  {
    if m != [] {
      var rest := m[1..];
      TotalCountsCovered(rest);
      RangeSize(m[0].first, m[0].End());
      forall i | i in Covered(rest)
        ensures i !in Range(m[0].first, m[0].End())
      {
        CoveredIsCovers(rest, i);
      }
      assert Range(m[0].first, m[0].End()) !! Covered(rest);
    }
  }

  function Removed(m: seq<Interval>, k: nat): seq<Interval>
    requires k < |m|
  {
    m[..k] + m[k + 1..]
  }

  function Inserted(m: seq<Interval>, k: nat, x: Interval): seq<Interval>
    requires k <= |m|
  {
    m[..k] + [x] + m[k..]
  }

  lemma {:induction false} InsertedTotal(m: seq<Interval>, k: nat, x: Interval)
    requires k <= |m|
    ensures Total(Inserted(m, k, x)) == Total(m) + x.size
  {
    if k == 0 {
      assert Inserted(m, k, x)[1..] == m;
    } else {
      assert Inserted(m, k, x)[1..] == Inserted(m[1..], k - 1, x);
      InsertedTotal(m[1..], k - 1, x);
    }
  }

  lemma InsertRemoved(m: seq<Interval>, k: nat)
    requires k < |m|
    ensures Inserted(Removed(m, k), k, m[k]) == m
  {
  }

  lemma RemovedTotal(m: seq<Interval>, k: nat)
    requires k < |m|
    ensures Total(Removed(m, k)) == Total(m) - m[k].size
  {
    InsertRemoved(m, k);
    InsertedTotal(Removed(m, k), k, m[k]);
  }

  lemma InsertedCovers(m: seq<Interval>, k: nat, x: Interval, i: int)
    requires k <= |m|
    ensures Covers(Inserted(m, k, x), i) <==> Covers(m, i) || x.Has(i)
  {
    var n := Inserted(m, k, x);
    if Covers(n, i) {
      var j :| 0 <= j < |n| && n[j].Has(i);
      if j < k {
        assert m[j].Has(i);
      } else if j > k {
        assert m[j - 1].Has(i);
      }
    }
    if Covers(m, i) {
      var j :| 0 <= j < |m| && m[j].Has(i);
      assert n[if j < k then j else j + 1].Has(i);
    }
    assert n[k] == x;
  }

  lemma RemovedCovers(m: seq<Interval>, k: nat, i: int)
    requires k < |m|
    ensures Covers(m, i) <==> Covers(Removed(m, k), i) || m[k].Has(i)
  {
    InsertRemoved(m, k);
    InsertedCovers(Removed(m, k), k, m[k], i);
  }

  lemma RemovedSeparated(m: seq<Interval>, k: nat)
    requires Separated(m) && k < |m|
    ensures Separated(Removed(m, k))
  {
  }

  lemma InsertedSeparated(m: seq<Interval>, k: nat, x: Interval)
    requires Separated(m) && k <= |m| && 0 < x.size
    requires forall j :: 0 <= j < k ==> m[j].End() < x.first
    requires k < |m| ==> x.End() < m[k].first
    ensures Separated(Inserted(m, k, x))
  {
  }

  /** A set of indices has only one separated map: equal coverage means equal maps. */
  lemma {:induction false} SeparatedIsCanonical(m: seq<Interval>, n: seq<Interval>)
    requires Separated(m) && Separated(n)
    requires forall i: nat :: Covers(m, i) <==> Covers(n, i)
    ensures m == n
  {
    if m == [] || n == [] {
      FirstCovered(m);
      FirstCovered(n);
    } else {
      FirstEntryForced(m, n);
      FirstEntryForced(n, m);
      forall i: nat
        ensures Covers(m[1..], i) <==> Covers(n[1..], i)
      {
        TailCovers(m, i);
        TailCovers(n, i);
      }
      SeparatedIsCanonical(m[1..], n[1..]);
      assert m[0] == n[0];
      assert m == [m[0]] + m[1..];
      assert n == [n[0]] + n[1..];
    }
  }

  lemma FirstCovered(m: seq<Interval>)
    requires Separated(m)
    ensures m != [] ==> Covers(m, m[0].first)
  {
    if m != [] {
      assert m[0].Has(m[0].first);
    }
  }

  lemma TailCovers(m: seq<Interval>, i: int)
    requires Separated(m) && m != []
    ensures Covers(m[1..], i) <==> Covers(m, i) && !m[0].Has(i)
  {
    assert Removed(m, 0) == m[1..];
    RemovedCovers(m, 0, i);
    if Covers(m[1..], i) {
      var k :| 0 <= k < |m[1..]| && m[1..][k].Has(i);
      assert m[0].End() < m[k + 1].first;
    }
  }

  lemma FirstEntryForced(m: seq<Interval>, n: seq<Interval>)
    requires Separated(m) && Separated(n) && m != [] && n != []
    requires forall i: nat :: Covers(m, i) <==> Covers(n, i)
    ensures n[0].first <= m[0].first
    ensures n[0].first == m[0].first ==> m[0].End() <= n[0].End()
  {
    FirstCovered(m);
    EndUncovered(n);
    var e := n[0].End();
    assert !Covers(m, e);
    assert !m[0].Has(e);
  }

  lemma EndUncovered(m: seq<Interval>)
    requires Separated(m) && m != []
    ensures !Covers(m, m[0].End())
    ensures forall i :: i < m[0].first ==> !Covers(m, i)
  {
  }

  /** The first position whose key is at least `index`. */
  function LowerBound(m: seq<Interval>, index: nat): (p: nat)
    ensures p <= |m|
    ensures forall k :: 0 <= k < p ==> m[k].first < index
    ensures p < |m| ==> index <= m[p].first
  {
    if m == [] || index <= m[0].first then 0
    else
      var q := LowerBound(m[1..], index);
      assert forall k :: 0 < k <= q ==> m[k] == m[1..][k - 1];
      q + 1
  }

  /** The first index from `from` on that is missing from `keys`. */
  ghost function RunEnd(keys: set<nat>, from: nat): (e: nat)
    ensures from <= e && e !in keys
    ensures forall i: nat :: from <= i < e ==> i in keys
    decreases keys
  {
    if from in keys then RunEnd(keys - {from}, from + 1) else from
  }

  lemma RunEndUnique(keys: set<nat>, from: nat, e: nat)
    requires from <= e && e !in keys
    requires forall i: nat :: from <= i < e ==> i in keys
    ensures RunEnd(keys, from) == e
  {
    var r := RunEnd(keys, from);
    assert r < e ==> r in keys;
  }

  /** What of `keys` lies at or beyond `from`. */
  ghost function Beyond(keys: set<nat>, from: nat): set<nat> {
    set i | i in keys && from <= i
  }
}
