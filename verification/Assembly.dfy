/** Assembling a stream from pieces in any order, as the documentation describes it: bytes held by their index. */
module Assembly {
  import opened Bytes
  import opened Intervals
  import opened Streams

  /** `stored` with the bytes of `data` laid over it from `index` on. */
  ghost function Overlay(stored: map<nat, Byte>, index: nat, data: seq<Byte>): (m: map<nat, Byte>)
    ensures m.Keys == stored.Keys + Range(index, index + |data|)
  {
    var keys := stored.Keys + Range(index, index + |data|);
    map i | i in keys :: if index <= i < index + |data| then data[i - index] else stored[i]
  }

  ghost function Slice(stored: map<nat, Byte>, from: nat, to: nat): (s: seq<Byte>)
    requires from <= to && forall i: nat :: from <= i < to ==> i in stored
  {
    seq(to - from, k requires 0 <= k < to - from => stored[from + k])
  }

  ghost function DropBelow(stored: map<nat, Byte>, from: nat): map<nat, Byte> {
    map i | i in stored && from <= i :: stored[i]
  }

  /** The assembled output, the byte held for each index beyond it, and where the stream ends if that is known. */
  datatype Picture = Picture(out: Stream, stored: map<nat, Byte>, eof: Option<nat>) {

    /** Index of the first byte not yet assembled. */
    function Next(): nat {
      |out.written|
    }

    /** Nothing is held that the output will have no room for. */
    ghost predicate InWindow() {
      && out.WellFormed()
      && forall i :: i in stored ==> Next() < i < out.Limit()
    }

    /** Index `i` has been received and kept. */
    ghost predicate Has(i: nat) {
      i < Next() || i in stored
    }

    /** Everything kept is what stands at its index in `s`. */
    ghost predicate Agrees(s: seq<Byte>) {
      && out.written <= s
      && forall i :: i in stored ==> i < |s| && stored[i] == s[i]
    }
  }

  /** Where an offer starts once the part already assembled is cut off. */
  function Start(out: Stream, index: nat): nat {
    Max(index, |out.written|)
  }

  /** What the documentation says is stored of an offer: everything the capacity has room for. */
  function Clipped(out: Stream, data: seq<Byte>, index: nat): seq<Byte>
    requires |out.written| <= index + |data|
  {
    var start := Start(out, index);
    if out.Limit() <= start then [] else data[start - index..Min(|data|, out.Limit() - index)]
  }

  /** Lays `piece` over the held bytes and moves the run that continues the output into it. */
  ghost function Assemble(r: Picture, piece: seq<Byte>, start: nat): Picture
    requires r.out.WellFormed()
  {
    var held := Overlay(r.stored, start, piece);
    var end := RunEnd(held.Keys, r.Next());
    r.(out := r.out.Write(Slice(held, r.Next(), end)), stored := DropBelow(held, end))
  }

  /** Assembles a piece and ends the output once the recorded end is reached. */
  ghost function Place(r: Picture, piece: seq<Byte>, start: nat, eof: Option<nat>): Picture
    requires r.out.WellFormed()
  {
    var r1 := if piece == [] then r.(eof := eof) else Assemble(r.(eof := eof), piece, start);
    if r1.eof == Some(r1.Next()) then r1.(out := r1.out.EndInput()) else r1
  }

  /** What the documentation promises: bytes beyond the capacity are discarded, the rest is assembled. */
  ghost function Documented(r: Picture, data: seq<Byte>, index: nat, eof: bool): Picture
    requires r.out.WellFormed()
  {
    if index + |data| < r.Next() then r
    else Place(r, Clipped(r.out, data, index), Start(r.out, index), if eof then Some(index + |data|) else r.eof)
  }

  /** How a piece that leaves a hole before it is stored. */
  lemma AssembleApart(r: Picture, piece: seq<Byte>, start: nat)
    requires r.InWindow() && r.Next() < start && piece != []
    ensures Assemble(r, piece, start) == r.(stored := Overlay(r.stored, start, piece))
  {
    var held := Overlay(r.stored, start, piece);
    RunEndUnique(held.Keys, r.Next(), r.Next());
    assert DropBelow(held, r.Next()) == held;
    assert r.out.Write([]) == r.out;
  }

  /** How a piece that reaches back to the output and forward to the limit fills the output. */
  lemma AssembleFills(r: Picture, piece: seq<Byte>, start: nat)
    requires r.InWindow() && piece != [] && r.Next() == start && r.out.Limit() <= start + |piece|
    ensures Assemble(r, piece, start) ==
            r.(out := r.out.(written := r.out.written + piece[..r.out.Limit() - start]), stored := map[])
  {
    RunIsPiece(r, piece, start);
    hide Overlay, DropBelow, Slice, RunEnd;
  }

  lemma RunIsPiece(r: Picture, piece: seq<Byte>, start: nat)
    requires r.InWindow() && r.Next() == start && r.out.Limit() <= start + |piece|
    ensures var held := Overlay(r.stored, start, piece);
            && RunEnd(held.Keys, start) == start + |piece|
            && Slice(held, start, start + |piece|) == piece
            && DropBelow(held, start + |piece|) == map[]
  {
    var held := Overlay(r.stored, start, piece);
    RunEndUnique(held.Keys, start, start + |piece|);
    hide RunEnd;
  }

  /** `clipped` is what of `kept` lies below `limit`. */
  predicate CutAt(clipped: seq<Byte>, kept: seq<Byte>, start: nat, limit: nat) {
    clipped == if start <= limit <= start + |kept| then kept[..limit - start] else if limit < start then [] else kept
  }

  lemma PlacementsEqual(r: Picture, kept: seq<Byte>, clipped: seq<Byte>, start: nat, e1: Option<nat>, e2: Option<nat>)
    requires r.InWindow() && r.Next() <= start
    requires CutAt(clipped, kept, start, r.out.Limit())
    ensures Place(r, kept, start, e1) == Place(r, clipped, start, e2) <==>
            e1 == e2 && (kept == [] || start + |kept| <= r.out.Limit() || start == r.Next())
  {
    hide Place;
    PlaceKeepsEof(r, kept, start, e1);
    PlaceKeepsEof(r, clipped, start, e2);
    if e1 == e2 {
      if kept == [] || start + |kept| <= r.out.Limit() {
        assert kept == clipped;
      } else if start == r.Next() {
        SameFilling(r, kept, clipped, start, e1);
      } else {
        StoredBeyondLimit(r, kept, clipped, start, e1, e2);
      }
    }
  }

  lemma PlaceKeepsEof(r: Picture, piece: seq<Byte>, start: nat, e: Option<nat>)
    requires r.out.WellFormed()
    ensures Place(r, piece, start, e).eof == e
  {
  }

  lemma SameFilling(r: Picture, kept: seq<Byte>, clipped: seq<Byte>, start: nat, e: Option<nat>)
    requires r.InWindow() && r.Next() == start && kept != [] && r.out.Limit() <= start + |kept|
    requires clipped == kept[..r.out.Limit() - start]
    ensures Place(r, kept, start, e) == Place(r, clipped, start, e)
  {
    hide Assemble;
    var r1 := r.(eof := e);
    AssembleFills(r1, kept, start);
    if clipped != [] {
      AssembleFills(r1, clipped, start);
    } else {
      assert r1.out.written + clipped == r1.out.written;
      assert r.stored == map[];
    }
  }

  lemma StoredBeyondLimit(r: Picture, kept: seq<Byte>, clipped: seq<Byte>, start: nat, e1: Option<nat>, e2: Option<nat>)
    requires r.InWindow() && r.Next() < start && r.out.Limit() < start + |kept| && 0 < |kept|
    requires clipped == [] || start + |clipped| <= r.out.Limit()
    ensures Place(r, kept, start, e1) != Place(r, clipped, start, e2)
  {
    var last := start + |kept| - 1;
    AssembleApart(r.(eof := e1), kept, start);
    assert last in Place(r, kept, start, e1).stored;
    if clipped != [] {
      AssembleApart(r.(eof := e2), clipped, start);
    }
    assert last !in Place(r, clipped, start, e2).stored;
  }

  /** `p` is `r` after receiving the indices from `lo` to `hi` of `s`: exactly those are added. */
  ghost predicate Grows(r: Picture, p: Picture, s: seq<Byte>, lo: nat, hi: nat) {
    && p.InWindow() && p.Agrees(s) && r.Next() <= p.Next()
    && p.out == r.out.(written := p.out.written, ended := p.out.ended)
    && forall i: nat :: p.Has(i) <==> r.Has(i) || lo <= i < hi
  }

  lemma RunWithin(r: Picture, piece: seq<Byte>, start: nat)
    requires r.InWindow() && r.Next() <= start && start + |piece| <= r.out.Limit()
    ensures var held := Overlay(r.stored, start, piece);
            var end := RunEnd(held.Keys, r.Next());
            && end <= r.out.Limit()
            && Assemble(r, piece, start) ==
               r.(out := r.out.(written := r.out.written + Slice(held, r.Next(), end)), stored := DropBelow(held, end))
  {
    var held := Overlay(r.stored, start, piece);
    var end := RunEnd(held.Keys, r.Next());
    if r.Next() < end {
      assert end - 1 in held.Keys;
    }
    var run := Slice(held, r.Next(), end);
    assert r.out.Accepted(run) == run;
  }

  lemma OverlayAgrees(r: Picture, s: seq<Byte>, piece: seq<Byte>, start: nat)
    requires r.Agrees(s) && start + |piece| <= |s| && piece == s[start..start + |piece|]
    ensures forall i :: i in Overlay(r.stored, start, piece) ==> i < |s| && Overlay(r.stored, start, piece)[i] == s[i]
  {
    var held := Overlay(r.stored, start, piece);
    forall i | i in held
      ensures i < |s| && held[i] == s[i]
    {
    }
  }

  lemma SliceAgrees(held: map<nat, Byte>, s: seq<Byte>, from: nat, to: nat)
    requires from <= to && forall i: nat :: from <= i < to ==> i in held
    requires forall i :: i in held ==> i < |s| && held[i] == s[i]
    requires from <= |s|
    ensures to <= |s| && s[..from] + Slice(held, from, to) == s[..to]
  {
    if from < to {
      assert to - 1 in held;
    }
    assert Slice(held, from, to) == s[from..to];
  }

  /** Assembling a piece of `s`, whether there is room for it or not. */
  lemma AssembleAgrees(r: Picture, s: seq<Byte>, piece: seq<Byte>, start: nat)
    requires r.Agrees(s) && r.out.WellFormed() && start + |piece| <= |s| && piece == s[start..start + |piece|]
    ensures Assemble(r, piece, start).Agrees(s)
    ensures forall i: nat :: Assemble(r, piece, start).Has(i) ==> r.Has(i) || start <= i < start + |piece|
  {
    var held := Overlay(r.stored, start, piece);
    var end := RunEnd(held.Keys, r.Next());
    hide Overlay, Slice, DropBelow;
    OverlayAgrees(r, s, piece, start);
    assert r.out.written == s[..r.Next()];
    SliceAgrees(held, s, r.Next(), end);
    AssembledPart(r, held, s, end, Assemble(r, piece, start));
  }

  /** The output takes a part of the run, and the rest stays stored. */
  lemma AssembledPart(r: Picture, held: map<nat, Byte>, s: seq<Byte>, end: nat, d: Picture)
    requires r.out.WellFormed() && r.Next() <= end <= |s| && forall i: nat :: r.Next() <= i < end ==> i in held
    requires r.out.written == s[..r.Next()] && r.out.written + Slice(held, r.Next(), end) == s[..end]
    requires forall i :: i in held ==> i < |s| && held[i] == s[i]
    requires d == r.(out := r.out.Write(Slice(held, r.Next(), end)), stored := DropBelow(held, end))
    ensures d.Agrees(s) && forall i: nat :: d.Has(i) ==> r.Has(i) || i in held
  {
    hide Slice;
    var run := Slice(held, r.Next(), end);
    var n := |r.out.Accepted(run)|;
    assert d.out.written == r.out.written + run[..n] == (r.out.written + run)[..r.Next() + n] == s[..r.Next() + n];
  }

  /** Assembling a piece of `s` that there is room for. */
  lemma AssembleWithin(r: Picture, s: seq<Byte>, piece: seq<Byte>, start: nat)
    requires r.InWindow() && r.Agrees(s)
    requires r.Next() <= start && start + |piece| <= r.out.Limit()
    requires start + |piece| <= |s| && piece == s[start..start + |piece|]
    ensures Grows(r, Assemble(r, piece, start), s, start, start + |piece|)
    ensures Assemble(r, piece, start).eof == r.eof && Assemble(r, piece, start).out.ended == r.out.ended
  {
    var held := Overlay(r.stored, start, piece);
    var end := RunEnd(held.Keys, r.Next());
    RunWithin(r, piece, start);
    OverlayAgrees(r, s, piece, start);
    assert r.out.written == s[..r.Next()];
    SliceAgrees(held, s, r.Next(), end);
    var d := Assemble(r, piece, start);
    assert d.Next() == end;
    assert d.Agrees(s) && d.out.WellFormed();
    AssembledHas(r, d, held, end, start, |piece|);
  }

  lemma AssembledHas(r: Picture, d: Picture, held: map<nat, Byte>, end: nat, start: nat, len: nat)
    requires r.InWindow() && r.Next() <= start && start + len <= r.out.Limit()
    requires d.out.WellFormed() && d.out.Limit() == r.out.Limit()
    requires r.Next() <= end && d.Next() == end && end !in held && d.stored == DropBelow(held, end)
    requires forall i: nat :: r.Next() <= i < end ==> i in held
    requires held.Keys == r.stored.Keys + Range(start, start + len)
    ensures d.InWindow()
    ensures forall i: nat :: d.Has(i) <==> r.Has(i) || start <= i < start + len
  {
    forall i: nat
      ensures d.Has(i) <==> r.Has(i) || start <= i < start + len
    {
      assert i in held <==> i in r.stored || i in Range(start, start + len);
      assert i in d.stored <==> i in held && end <= i;
    }
  }

  lemma PlaceAgrees(r: Picture, s: seq<Byte>, index: nat, end: nat, piece: seq<Byte>, e: Option<nat>)
    requires r.InWindow() && r.Agrees(s) && r.Next() <= end && index <= end
    requires var start := Start(r.out, index);
             && start + |piece| == Max(start, Min(end, r.out.Limit()))
             && start + |piece| <= |s| && piece == s[start..start + |piece|]
    ensures var p := Place(r, piece, Start(r.out, index), e);
            && Grows(r, p, s, index, Min(end, r.out.Limit()))
            && p.eof == e
            && (p.out.ended <==> r.out.ended || e == Some(p.Next()))
  {
    var start := Start(r.out, index);
    var r1 := r.(eof := e);
    if piece != [] {
      AssembleWithin(r1, s, piece, start);
      GrowsWider(r, e, Assemble(r1, piece, start), s, index, start, start + |piece|);
    } else {
      GrowsWider(r, e, r1, s, index, Min(start, r.out.Limit()), Min(start, r.out.Limit()));
    }
  }

  /** Growth does not depend on the recorded end, and re-offering assembled bytes adds nothing. */
  lemma GrowsWider(r: Picture, e: Option<nat>, d: Picture, s: seq<Byte>, index: nat, lo: nat, hi: nat)
    requires Grows(r.(eof := e), d, s, lo, hi)
    requires lo <= index || lo <= r.Next()
    requires index <= lo || lo == hi
    ensures Grows(r, d, s, index, hi)
    ensures Grows(r, d.(out := d.out.EndInput()), s, index, hi)
  {
    var p := d.(out := d.out.EndInput());
    assert forall i: nat :: r.(eof := e).Has(i) == r.Has(i);
    assert forall i: nat :: p.Has(i) == d.Has(i);
  }

  lemma ClippedSlice(r: Picture, s: seq<Byte>, index: nat, end: nat)
    requires index <= end <= |s| && r.Next() <= end && r.out.WellFormed()
    ensures var piece := Clipped(r.out, s[index..end], index);
            var start := Start(r.out, index);
            && start + |piece| == Max(start, Min(end, r.out.Limit()))
            && start + |piece| <= |s| && piece == s[start..start + |piece|]
  {
    var start := Start(r.out, index);
    if start < r.out.Limit() {
      SliceOfSlice(s, index, end, start - index, Min(end, r.out.Limit()) - index);
    }
  }

  lemma AssembleInWindow(r: Picture, piece: seq<Byte>, start: nat)
    requires r.InWindow() && r.Next() <= start && start + |piece| <= r.out.Limit()
    ensures Assemble(r, piece, start).InWindow()
  {
    RunWithin(r, piece, start);
    var held := Overlay(r.stored, start, piece);
    var end := RunEnd(held.Keys, r.Next());
    var d := Assemble(r, piece, start);
    hide Overlay, RunEnd, DropBelow, Assemble;
    AssembledHas(r, d, held, end, start, |piece|);
  }

  lemma PlaceInWindow(r: Picture, piece: seq<Byte>, start: nat, e: Option<nat>)
    requires r.InWindow() && r.Next() <= start && (piece == [] || start + |piece| <= r.out.Limit())
    ensures Place(r, piece, start, e).InWindow()
  {
    if piece != [] {
      AssembleInWindow(r.(eof := e), piece, start);
    }
    hide Assemble;
  }

  lemma ClippedWithin(r: Picture, data: seq<Byte>, index: nat)
    requires r.Next() <= index + |data|
    ensures Clipped(r.out, data, index) == [] || Start(r.out, index) + |Clipped(r.out, data, index)| <= r.out.Limit()
  {
  }

  lemma PlacedWhole(r: Picture, e: seq<Byte>, eof: Option<nat>)
    requires 0 < |e| && r == Picture(Empty(|e|), map[], None)
    ensures Place(r, e, 0, eof).out == Stream(|e|, e, 0, eof == Some(|e|), false)
  {
    hide Assemble;
    AssembleFills(r.(eof := eof), e, 0);
    assert e[..|e|] == e && [] + e == e;
  }

  /** As documented, offering a slice of `s` keeps the picture in agreement with `s`, adds exactly the part there is
      room for, and records the end of `s` when so marked. */
  lemma DocumentedAgrees(r: Picture, s: seq<Byte>, index: nat, end: nat, eof: bool)
    requires r.InWindow() && r.Agrees(s)
    requires index <= end <= |s| && (eof ==> end == |s|)
    ensures var p := Documented(r, s[index..end], index, eof);
            && Grows(r, p, s, index, Min(end, r.out.Limit()))
            && p.eof == (if eof then Some(|s|) else r.eof)
            && (p.out.ended <==> r.out.ended || (r.Next() <= end && p.eof == Some(p.Next())))
  {
    hide Place, Clipped;
    if end < r.Next() {
      assert forall i: nat :: index <= i < end ==> r.Has(i);
    } else {
      ClippedSlice(r, s, index, end);
      PlaceAgrees(r, s, index, end, Clipped(r.out, s[index..end], index), if eof then Some(end) else r.eof);
    }
  }

  lemma DocumentedInWindow(r: Picture, data: seq<Byte>, index: nat, eof: bool)
    requires r.InWindow()
    ensures Documented(r, data, index, eof).InWindow()
  {
    hide Place, Clipped;
    if r.Next() <= index + |data| {
      ClippedWithin(r, data, index);
      PlaceInWindow(r, Clipped(r.out, data, index), Start(r.out, index), if eof then Some(index + |data|) else r.eof);
    }
  }
}
