/** Reassembly of a byte stream from pieces in any order, as a value: exactly what the code does, in every state. */
module Reassembly {
  import opened Bytes
  import opened Intervals
  import opened Streams
  import opened Assembly

  /** The assembled output, the ring of early bytes seen from its start position, the indices its map covers, and where
      the stream ends if that is known. The byte for index `i` is looked for `i - Next()` places into the ring. */
  datatype Reassembler = Reassembler(out: Stream, ring: seq<Byte>, held: set<nat>, eof: Option<nat>) {

    /** Index of the first byte not yet assembled. */
    function Next(): nat {
      |out.written|
    }

    /** First index beyond the room the reader has left. */
    function Limit(): nat {
      out.Limit()
    }

    ghost predicate WellFormed() {
      && out.WellFormed() && |ring| == out.capacity
      && forall i :: i in held ==> Next() < i < Next() + out.capacity
    }

    /** Nothing is held that the output will have no room for. */
    ghost predicate InWindow() {
      && WellFormed()
      && forall i :: i in held ==> i < Limit()
    }

    /** Index `i` has been received and kept. */
    ghost predicate Has(i: nat) {
      i < Next() || i in held
    }

    /** Everything kept is what stands at its index in `s`. */
    ghost predicate Agrees(s: seq<Byte>) {
      && WellFormed()
      && out.written <= s
      && forall i :: i in held ==> i < |s| && ring[i - Next()] == s[i]
    }

    /** The byte the code would deliver for each index held. */
    ghost function View(): (p: Picture)
      requires WellFormed()
    {
      Picture(out, map i | i in held :: ring[i - Next()], eof)
    }
  }

  function EmptyReassembler(capacity: nat): Reassembler {
    Reassembler(Empty(capacity), seq(capacity, _ => 0 as Byte), {}, None)
  }

  /** The offer without the part already assembled. */
  function Unseen(out: Stream, data: seq<Byte>, index: nat): seq<Byte>
    requires |out.written| <= index + |data|
  {
    data[Start(out, index) - index..]
  }

  /** The unsigned room computation wraps round more than a capacity beyond the output; then an assertion stops the
      program. */
  predicate Aborts(out: Stream, data: seq<Byte>, index: nat) {
    && |out.written| <= index + |data|
    && Unseen(out, data, index) != []
    && |out.written| + out.capacity < Start(out, index)
  }

  /** What the code stores of an offer: room is counted from the output's end, not from the reader's position. */
  function Kept(out: Stream, data: seq<Byte>, index: nat): seq<Byte>
    requires |out.written| <= index + |data|
  {
    var edge := |out.written| + out.capacity;
    var start := Start(out, index);
    data[start - index..if start <= edge then Min(|data|, edge - index) else |data|]
  }

  /** There is a slot in the ring for every byte of the piece. */
  predicate WithinRing(r: Reassembler, piece: seq<Byte>, start: nat) {
    r.Next() <= start && start + |piece| <= r.Next() + r.out.capacity
  }

  /** The indices covered once the piece is in. */
  ghost function HeldWith(r: Reassembler, piece: seq<Byte>, start: nat): set<nat> {
    r.held + Range(start, start + |piece|)
  }

  lemma RunInRing(r: Reassembler, piece: seq<Byte>, start: nat)
    requires r.WellFormed() && WithinRing(r, piece, start)
    ensures RunEnd(HeldWith(r, piece, start), r.Next()) <= r.Next() + r.out.capacity
  {
    var end := RunEnd(HeldWith(r, piece, start), r.Next());
    if r.Next() < end {
      assert end - 1 in HeldWith(r, piece, start);
    }
  }

  /** Writes the piece into the ring and takes out the run at its start, which the output may cut short: the ring moves
      on by the length of the run all the same. */
  ghost function Feed(r: Reassembler, piece: seq<Byte>, start: nat): Reassembler
    requires r.WellFormed() && WithinRing(r, piece, start)
  {
    var ring := Splice(r.ring, start - r.Next(), piece);
    var held := HeldWith(r, piece, start);
    var end := RunEnd(held, r.Next());
    RunInRing(r, piece, start);
    r.(out := r.out.Write(ring[..end - r.Next()]), ring := Rotate(ring, end - r.Next()), held := Beyond(held, end))
  }

  ghost function Settle(r: Reassembler, piece: seq<Byte>, start: nat, eof: Option<nat>): Reassembler
    requires r.WellFormed() && (piece == [] || WithinRing(r, piece, start))
  {
    var r1 := if piece == [] then r.(eof := eof) else Feed(r.(eof := eof), piece, start);
    if r1.eof == Some(r1.Next()) then r1.(out := r1.out.EndInput()) else r1
  }

  lemma KeptWithinRing(r: Reassembler, data: seq<Byte>, index: nat)
    requires r.WellFormed() && r.Next() <= index + |data| && !Aborts(r.out, data, index)
    ensures var kept := Kept(r.out, data, index);
            kept == [] || WithinRing(r, kept, Start(r.out, index))
  {
  }

  /** What the code does with an offer, in any state. */
  ghost function Push(r: Reassembler, data: seq<Byte>, index: nat, eof: bool): Reassembler
    requires r.WellFormed() && !Aborts(r.out, data, index)
  {
    if index + |data| < r.Next() then r
    else
      var kept := Kept(r.out, data, index);
      var start := Start(r.out, index);
      KeptWithinRing(r, data, index);
      Settle(r, kept, start, if eof then Some(start + |kept|) else r.eof)
  }

  // ---- in every state ----

  /** Output already assembled stays, and an ended output stays ended. */
  predicate Continues(s: Stream, t: Stream) {
    && t.WellFormed() && s.written <= t.written && (s.ended ==> t.ended)
    && t == s.(written := t.written, ended := t.ended)
  }

  lemma FeedContinues(r: Reassembler, piece: seq<Byte>, start: nat)
    requires r.WellFormed() && WithinRing(r, piece, start)
    ensures Feed(r, piece, start).WellFormed() && Continues(r.out, Feed(r, piece, start).out)
  {
    hide RunEnd, Splice, Rotate;
    RunInRing(r, piece, start);
    var end := RunEnd(HeldWith(r, piece, start), r.Next());
    var q := Feed(r, piece, start);
    assert q.Next() <= end && r.Next() <= q.Next();
  }

  /** Whatever is offered in whatever state, the output only continues, and what is held stays within one ring's length
      beyond it. */
  lemma PushContinues(r: Reassembler, data: seq<Byte>, index: nat, eof: bool)
    requires r.WellFormed() && !Aborts(r.out, data, index)
    ensures Push(r, data, index, eof).WellFormed() && Continues(r.out, Push(r, data, index, eof).out)
  {
    hide Feed, Kept, Start;
    if r.Next() <= index + |data| {
      var kept := Kept(r.out, data, index);
      var start := Start(r.out, index);
      KeptWithinRing(r, data, index);
      if kept != [] {
        FeedContinues(r.(eof := if eof then Some(start + |kept|) else r.eof), kept, start);
      }
    }
  }

  // ---- while the ring is in step with the output ----

  /** The run a piece completes fits the output, or leaves nothing held beyond it. */
  ghost predicate InStepAfter(r: Reassembler, piece: seq<Byte>, start: nat) {
    var held := HeldWith(r, piece, start);
    var end := RunEnd(held, r.Next());
    end <= r.Limit() || Beyond(held, end) == {}
  }

  /** Byte by byte, the ring with the piece written into it is the overlay. */
  lemma SpliceIsOverlay(r: Reassembler, piece: seq<Byte>, start: nat)
    requires r.WellFormed() && WithinRing(r, piece, start)
    ensures var held := Overlay(r.View().stored, start, piece);
            && held.Keys == HeldWith(r, piece, start)
            && forall i :: i in held ==> r.Next() <= i < r.Next() + r.out.capacity
                                         && held[i] == Splice(r.ring, start - r.Next(), piece)[i - r.Next()]
  {
    var held := Overlay(r.View().stored, start, piece);
    assert r.View().stored.Keys == r.held;
    forall i | i in held
      ensures r.Next() <= i < r.Next() + r.out.capacity
      ensures held[i] == Splice(r.ring, start - r.Next(), piece)[i - r.Next()]
    {
      if start <= i < start + |piece| {
        assert held[i] == piece[i - start];
      } else {
        assert held[i] == r.ring[i - r.Next()];
      }
    }
  }

  lemma RunIsSlice(ring: seq<Byte>, held: map<nat, Byte>, next: nat, end: nat)
    requires next <= end <= next + |ring| && forall i: nat :: next <= i < end ==> i in held
    requires forall i :: i in held ==> next <= i < next + |ring| && held[i] == ring[i - next]
    ensures ring[..end - next] == Slice(held, next, end)
  {
  }

  /** Seen from the end of the run, the rest of the ring still has every byte beyond it. */
  lemma RotatedHolds(ring: seq<Byte>, held: map<nat, Byte>, next: nat, end: nat)
    requires next <= end <= next + |ring|
    requires forall i :: i in held ==> next <= i < next + |ring| && held[i] == ring[i - next]
    ensures forall i :: i in held && end <= i ==> Rotate(ring, end - next)[i - end] == held[i]
  {
  }

  /** As long as ring and output stay in step, the code assembles the piece as documented. */
  lemma FeedAssembles(r: Reassembler, piece: seq<Byte>, start: nat)
    requires r.WellFormed() && WithinRing(r, piece, start) && InStepAfter(r, piece, start)
    ensures Feed(r, piece, start).WellFormed()
    ensures Feed(r, piece, start).View() == Assemble(r.View(), piece, start)
  {
    hide Overlay, Splice, Rotate, RunEnd, Slice, HeldWith;
    var next := r.Next();
    var held := Overlay(r.View().stored, start, piece);
    var ring := Splice(r.ring, start - next, piece);
    var end := RunEnd(held.Keys, next);
    SpliceIsOverlay(r, piece, start);
    RunInRing(r, piece, start);
    FeedContinues(r, piece, start);
    RunIsSlice(ring, held, next, end);
    RotatedHolds(ring, held, next, end);
    SameStored(r, Feed(r, piece, start), held, ring[..end - next], end);
  }

  lemma SameStored(r: Reassembler, q: Reassembler, held: map<nat, Byte>, run: seq<Byte>, end: nat)
    requires r.WellFormed() && q.WellFormed() && r.Next() + |run| == end
    requires q.out == r.out.Write(run) && q.held == Beyond(held.Keys, end)
    requires forall i :: i in held && end <= i ==> i - end < |q.ring| && q.ring[i - end] == held[i]
    requires end <= r.Limit() || Beyond(held.Keys, end) == {}
    ensures q.View() == Picture(r.out.Write(run), DropBelow(held, end), q.eof)
  {
    if q.held != {} {
      assert r.out.Accepted(run) == run;
      assert q.Next() == end;
    }
    assert q.View().stored == DropBelow(held, end);
  }

  /** When nothing is held beyond the reader's room, no piece puts ring and output out of step: a run that does not fit
      the output leaves nothing held beyond it. */
  lemma InWindowInStep(r: Reassembler, piece: seq<Byte>, start: nat)
    requires r.InWindow() && r.Next() <= start
    ensures InStepAfter(r, piece, start)
  {
    var held := HeldWith(r, piece, start);
    var end := RunEnd(held, r.Next());
    hide RunEnd;
    if r.Limit() < end {
      assert end - 1 in held;
      assert end == start + |piece|;
    }
  }

  lemma SettlePlaces(r: Reassembler, piece: seq<Byte>, start: nat, e: Option<nat>)
    requires r.InWindow() && (piece == [] || WithinRing(r, piece, start))
    ensures Settle(r, piece, start, e).WellFormed()
    ensures Settle(r, piece, start, e).View() == Place(r.View(), piece, start, e)
  {
    hide Feed, Assemble, InStepAfter;
    var r1 := r.(eof := e);
    assert r1.View() == r.View().(eof := e);
    if piece != [] {
      InWindowInStep(r1, piece, start);
      FeedAssembles(r1, piece, start);
    }
    var q := if piece == [] then r1 else Feed(r1, piece, start);
    EndedView(q);
  }

  lemma EndedView(r: Reassembler)
    requires r.WellFormed()
    ensures r.(out := r.out.EndInput()).WellFormed()
    ensures r.(out := r.out.EndInput()).View() == r.View().(out := r.out.EndInput())
  {
  }

  lemma WindowSeen(r: Reassembler)
    requires r.WellFormed()
    ensures r.InWindow() <==> r.View().InWindow()
    ensures forall i: nat :: r.Has(i) <==> r.View().Has(i)
  {
    assert r.View().stored.Keys == r.held;
  }

  lemma AgreementSeen(r: Reassembler, s: seq<Byte>)
    requires r.WellFormed()
    ensures r.Agrees(s) <==> r.View().Agrees(s)
  {
    var p := r.View();
    assert p.stored.Keys == r.held;
    if p.Agrees(s) {
      forall i | i in r.held
        ensures i < |s| && r.ring[i - r.Next()] == s[i]
      {
        assert i in p.stored && p.stored[i] == r.ring[i - r.Next()];
      }
    }
  }

  // ---- the documented promise ----

  /** When the code and the documentation agree on an offer. */
  predicate Conforms(out: Stream, data: seq<Byte>, index: nat, eof: bool) {
    var end := index + |data|;
    var edge := |out.written| + out.capacity;
    var start := Start(out, index);
    || end < |out.written|
    || end == start
    || (&& start <= edge
        && (Min(end, edge) <= out.Limit() || start == edge || index <= |out.written|)
        && (eof ==> end <= edge))
  }

  /** The code keeps the documented promise on an offer if and only if the offer conforms. */
  lemma PushAsDocumented(r: Reassembler, data: seq<Byte>, index: nat, eof: bool)
    requires r.InWindow()
    ensures !Aborts(r.out, data, index) ==> Push(r, data, index, eof).WellFormed()
    ensures !Aborts(r.out, data, index) &&
            Push(r, data, index, eof).View() == Documented(r.View(), data, index, eof) <==>
            Conforms(r.out, data, index, eof)
  {
    hide Settle, Place, Kept, Clipped, Conforms, Aborts;
    WindowSeen(r);
    AbortsMeans(r.out, data, index, eof);
    if !Aborts(r.out, data, index) {
      PushContinues(r, data, index, eof);
    }
    if r.Next() <= index + |data| && !Aborts(r.out, data, index) {
      var start, kept := Start(r.out, index), Kept(r.out, data, index);
      KeptWithinRing(r, data, index);
      SettlePlaces(r, kept, start, if eof then Some(start + |kept|) else r.eof);
      PlacedAlike(r.View(), data, index, eof);
    }
  }

  /** When the assertion in the ring stops the program: after the cut to the room, computed in 64 bits, something is
      left that starts a capacity or more beyond the output. */
  lemma AbortsExactly(out: Stream, data: seq<Byte>, index: nat)
    requires out.WellFormed() && out.capacity < 0x1_0000_0000_0000_0000 && index < 0x1_0000_0000_0000_0000
    requires |out.written| <= index + |data| && |out.written| < 0x1_0000_0000_0000_0000
    ensures var start := if index < |out.written| then |out.written| else index;
            var unseen := data[start - index..];
            var room := (out.capacity - (start - |out.written|)) % 0x1_0000_0000_0000_0000;
            var piece := if |unseen| > room then unseen[..room] else unseen;
            Aborts(out, data, index) <==> piece != [] && !(start - |out.written| < out.capacity)
  {
    RoomIn64Bits(out.capacity, Start(out, index) - |out.written|);
  }

  lemma RoomIn64Bits(capacity: nat, distance: nat)
    requires capacity < 0x1_0000_0000_0000_0000 && distance < 0x1_0000_0000_0000_0000
    ensures (capacity - distance) % 0x1_0000_0000_0000_0000 ==
            if distance <= capacity then capacity - distance else capacity - distance + 0x1_0000_0000_0000_0000
  {
  }

  lemma AbortsMeans(out: Stream, data: seq<Byte>, index: nat, eof: bool)
    ensures index + |data| < |out.written| ==> Conforms(out, data, index, eof) && !Aborts(out, data, index)
    ensures Aborts(out, data, index) ==> !Conforms(out, data, index, eof)
  {
  }

  lemma PlacedAlike(p: Picture, data: seq<Byte>, index: nat, eof: bool)
    requires p.InWindow() && p.Next() <= index + |data| && !Aborts(p.out, data, index)
    ensures var start, kept := Start(p.out, index), Kept(p.out, data, index);
            Place(p, kept, start, if eof then Some(start + |kept|) else p.eof) == Documented(p, data, index, eof) <==>
            Conforms(p.out, data, index, eof)
  {
    hide Kept, Clipped, Place, CutAt, Conforms;
    var start, kept := Start(p.out, index), Kept(p.out, data, index);
    if start <= p.Next() + p.out.capacity {
      CutsNested(p.out, data, index);
      ConformsMeans(p.out, data, index, eof, kept);
      PlacementsEqual(p, kept, Clipped(p.out, data, index), start, if eof then Some(start + |kept|) else p.eof,
                      if eof then Some(index + |data|) else p.eof);
    } else {
      NothingUnseen(p.out, data, index, eof);
    }
  }

  lemma NothingUnseen(out: Stream, data: seq<Byte>, index: nat, eof: bool)
    requires |out.written| <= index + |data| == Start(out, index)
    ensures Kept(out, data, index) == [] == Clipped(out, data, index) && Conforms(out, data, index, eof)
  {
  }

  lemma ConformsMeans(out: Stream, data: seq<Byte>, index: nat, eof: bool, kept: seq<Byte>)
    requires |out.written| <= index + |data| && Start(out, index) <= |out.written| + out.capacity
    requires Start(out, index) + |kept| == Min(index + |data|, |out.written| + out.capacity)
    ensures Conforms(out, data, index, eof) <==>
            && (eof ==> Start(out, index) + |kept| == index + |data|)
            && (kept == [] || Start(out, index) + |kept| <= out.Limit() || Start(out, index) == |out.written|)
  {
  }

  lemma CutsNested(out: Stream, data: seq<Byte>, index: nat)
    requires out.WellFormed() && |out.written| <= index + |data| && Start(out, index) <= |out.written| + out.capacity
    ensures var start, kept := Start(out, index), Kept(out, data, index);
            && start + |kept| == Min(index + |data|, |out.written| + out.capacity)
            && CutAt(Clipped(out, data, index), kept, start, out.Limit())
  {
    var start := Start(out, index);
    if start <= out.Limit() <= start + |Kept(out, data, index)| {
      SliceOfSlice(data, start - index, start - index + |Kept(out, data, index)|, 0, out.Limit() - start);
    }
  }

  /** Offers that conform keep everything held within the reader's room. */
  lemma PushKeepsWindow(r: Reassembler, data: seq<Byte>, index: nat, eof: bool)
    requires r.InWindow() && Conforms(r.out, data, index, eof)
    ensures !Aborts(r.out, data, index) && Push(r, data, index, eof).InWindow()
  {
    hide Push, Documented, Conforms, Aborts;
    PushAsDocumented(r, data, index, eof);
    WindowSeen(r);
    DocumentedInWindow(r.View(), data, index, eof);
    WindowSeen(Push(r, data, index, eof));
  }

  /** `p` is `r` after receiving the indices from `lo` to `hi` of `s`, as far as anything can be delivered from it. */
  ghost predicate Gains(r: Reassembler, p: Reassembler, s: seq<Byte>, lo: nat, hi: nat) {
    r.WellFormed() && p.WellFormed() && Grows(r.View(), p.View(), s, lo, hi)
  }

  lemma GainsMeans(r: Reassembler, p: Reassembler, s: seq<Byte>, lo: nat, hi: nat)
    requires Gains(r, p, s, lo, hi)
    ensures p.InWindow() && p.Agrees(s) && r.Next() <= p.Next()
    ensures p.out == r.out.(written := p.out.written, ended := p.out.ended)
    ensures forall i: nat :: p.Has(i) <==> r.Has(i) || lo <= i < hi
  {
    WindowSeen(r);
    WindowSeen(p);
    AgreementSeen(p, s);
  }

  /** A conforming slice of `s` keeps the state in agreement with `s`, adds exactly the part there is room for, and
      records the end of `s` when so marked. */
  lemma PushAgrees(r: Reassembler, s: seq<Byte>, index: nat, end: nat, eof: bool)
    requires r.InWindow() && r.Agrees(s)
    requires index <= end <= |s| && (eof ==> end == |s|) && Conforms(r.out, s[index..end], index, eof)
    ensures !Aborts(r.out, s[index..end], index)
    ensures var p := Push(r, s[index..end], index, eof);
            && Gains(r, p, s, index, Min(end, r.Limit()))
            && p.eof == (if eof then Some(|s|) else r.eof)
            && (p.out.ended <==> r.out.ended || (r.Next() <= end && p.eof == Some(p.Next())))
  {
    hide Push, Documented, Conforms, Aborts;
    PushAsDocumented(r, s[index..end], index, eof);
    var p := Push(r, s[index..end], index, eof);
    WindowSeen(r);
    AgreementSeen(r, s);
    DocumentedAgrees(r.View(), s, index, end, eof);
    hide Reassembler.Agrees, Reassembler.WellFormed;
  }

  // ---- beyond the window ----

  /** The code keeps ring and output in step on this offer. */
  ghost predicate InStepOffer(r: Reassembler, data: seq<Byte>, index: nat) {
    r.Next() <= index + |data| ==>
      Kept(r.out, data, index) == [] || InStepAfter(r, Kept(r.out, data, index), Start(r.out, index))
  }

  /** In step, whatever is held and however little room there is, what is kept stays right. */
  lemma FeedInStep(r: Reassembler, s: seq<Byte>, piece: seq<Byte>, start: nat)
    requires r.Agrees(s) && WithinRing(r, piece, start) && InStepAfter(r, piece, start)
    requires start + |piece| <= |s| && piece == s[start..start + |piece|]
    ensures Feed(r, piece, start).Agrees(s)
    ensures forall i: nat :: Feed(r, piece, start).Has(i) ==> r.Has(i) || start <= i < start + |piece|
  {
    hide Feed, Overlay, Slice, RunEnd, InStepAfter;
    var v, q := r.View(), Feed(r, piece, start);
    FeedAssembles(r, piece, start);
    AgreementSeen(r, s);
    AgreementSeen(q, s);
    AssembleAgrees(v, s, piece, start);
    assert q.View().stored.Keys == q.held && v.stored.Keys == r.held;
    forall i: nat | q.Has(i)
      ensures r.Has(i) || start <= i < start + |piece|
    {
      assert q.View().Has(i);
    }
  }

  /** So a run of the code is safe as long as each offer keeps ring and output in step, in the window or not. */
  lemma PushInStep(r: Reassembler, s: seq<Byte>, lo: nat, hi: nat, eof: bool)
    requires r.Agrees(s) && lo <= hi <= |s| && !Aborts(r.out, s[lo..hi], lo) && InStepOffer(r, s[lo..hi], lo)
    ensures Push(r, s[lo..hi], lo, eof).Agrees(s)
    ensures forall i: nat :: Push(r, s[lo..hi], lo, eof).Has(i) ==> r.Has(i) || lo <= i < hi
  {
    hide Feed, InStepAfter, Kept, Start, Aborts, Settle;
    if r.Next() <= hi {
      var kept, start := Kept(r.out, s[lo..hi], lo), Start(r.out, lo);
      var e := if eof then Some(start + |kept|) else r.eof;
      KeptWithinRing(r, s[lo..hi], lo);
      KeptIsSlice(r.out, s, lo, hi);
      SettleInStep(r, s, kept, start, e);
    }
  }

  lemma KeptIsSlice(out: Stream, s: seq<Byte>, lo: nat, hi: nat)
    requires lo <= hi <= |s| && |out.written| <= hi && out.WellFormed()
    ensures var kept, start := Kept(out, s[lo..hi], lo), Start(out, lo);
            lo <= start && start + |kept| <= hi && kept == s[start..start + |kept|]
  {
  }

  lemma SettleInStep(r: Reassembler, s: seq<Byte>, piece: seq<Byte>, start: nat, e: Option<nat>)
    requires r.Agrees(s) && (piece == [] || (WithinRing(r, piece, start) && InStepAfter(r, piece, start)))
    requires start + |piece| <= |s| && piece == s[start..start + |piece|]
    ensures Settle(r, piece, start, e).Agrees(s)
    ensures forall i: nat :: Settle(r, piece, start, e).Has(i) ==> r.Has(i) || start <= i < start + |piece|
  {
    hide Feed, InStepAfter;
    var r1 := r.(eof := e);
    if piece != [] {
      SameStep(r, piece, start, e);
      FeedInStep(r1, s, piece, start);
    }
    var q := if piece == [] then r1 else Feed(r1, piece, start);
    var p := Settle(r, piece, start, e);
    assert p == q || p == q.(out := q.out.EndInput());
    forall i: nat | p.Has(i)
      ensures r.Has(i) || start <= i < start + |piece|
    {
      assert q.Has(i) && (r1.Has(i) <==> r.Has(i));
    }
  }

  lemma SameStep(r: Reassembler, piece: seq<Byte>, start: nat, e: Option<nat>)
    requires InStepAfter(r, piece, start)
    ensures InStepAfter(r.(eof := e), piece, start)
  {
    assert HeldWith(r.(eof := e), piece, start) == HeldWith(r, piece, start);
  }

  /** Out of step, every index still held is from then on looked for further on in the ring, by as much as the run that
      was taken out exceeds what the output took. */
  lemma OutOfStepReads(r: Reassembler, piece: seq<Byte>, start: nat)
    requires r.WellFormed() && WithinRing(r, piece, start) && !InStepAfter(r, piece, start)
    ensures var q, ring := Feed(r, piece, start), Splice(r.ring, start - r.Next(), piece);
            var end := RunEnd(HeldWith(r, piece, start), r.Next());
            && q.WellFormed() && q.held != {} && q.Next() == r.Limit() < end
            && forall i :: i in q.held ==>
                             && i in r.held
                             && q.ring[i - q.Next()] == ring[Slot(i - r.Next(), end - r.Limit(), r.out.capacity)]
  {
    hide Splice, RunEnd;
    RunInRing(r, piece, start);
    FeedContinues(r, piece, start);
    assert r.Next() in HeldWith(r, piece, start) && start == r.Next();
    assert start + |piece| <= RunEnd(HeldWith(r, piece, start), r.Next());
  }

  /** An offer the reader has room for, or one that starts no later than the first missing byte. */
  predicate Offerable(out: Stream, data: seq<Byte>, index: nat) {
    index + |data| <= out.Limit() || (|data| <= out.capacity && index <= |out.written|)
  }

  lemma OfferableConforms(out: Stream, data: seq<Byte>, index: nat, eof: bool)
    requires out.WellFormed() && Offerable(out, data, index)
    ensures Conforms(out, data, index, eof) && !Aborts(out, data, index)
  {
  }

  // ---- where the promise fails ----

  /** A new piece within the ring's reach, given where its run ends. */
  lemma PushedPiece(r: Reassembler, piece: seq<Byte>, start: nat, end: nat)
    requires r.WellFormed() && piece != [] && WithinRing(r, piece, start) && r.eof.None?
    requires r.Next() <= end && end !in HeldWith(r, piece, start)
    requires forall i: nat :: r.Next() <= i < end ==> i in HeldWith(r, piece, start)
    ensures !Aborts(r.out, piece, start) && end <= r.Next() + r.out.capacity
    ensures var ring := Splice(r.ring, start - r.Next(), piece);
            Push(r, piece, start, false) ==
            r.(out := r.out.Write(ring[..end - r.Next()]), ring := Rotate(ring, end - r.Next()),
               held := Beyond(HeldWith(r, piece, start), end))
  {
    hide HeldWith, Splice, Rotate;
    RunEndUnique(HeldWith(r, piece, start), r.Next(), end);
    RunInRing(r, piece, start);
    hide RunEnd;
    assert Kept(r.out, piece, start) == piece;
  }

  /** The promise fails: with one unread byte in a stream of two, a byte with no room left is stored all the same. */
  lemma StoresWithoutRoom(a: Byte, b: Byte, ring: seq<Byte>)
    requires |ring| == 2
    ensures var r := Reassembler(Stream(2, [a], 0, false, false), ring, {}, None);
            && r.InWindow() && !Aborts(r.out, [b], 2)
            && 2 in Push(r, [b], 2, false).held && 2 !in Documented(r.View(), [b], 2, false).stored
  {
    var r := Reassembler(Stream(2, [a], 0, false, false), ring, {}, None);
    PushedPiece(r, [b], 2, 1);
    hide Push;
    assert Clipped(r.out, [b], 2) == [];
  }

  /** The promise fails: a final segment longer than the capacity ends the stream before its last byte. */
  lemma EndsEarly(capacity: nat, data: seq<Byte>)
    requires 0 < capacity < |data|
    ensures var r := EmptyReassembler(capacity);
            && r.InWindow() && !Aborts(r.out, data, 0)
            && Push(r, data, 0, true).out == Stream(capacity, data[..capacity], 0, true, false)
            && !Documented(r.View(), data, 0, true).out.ended
  {
    hide Place, Settle;
    var r := EmptyReassembler(capacity);
    var e := data[..capacity];
    assert Kept(r.out, data, 0) == e == Clipped(r.out, data, 0);
    assert r.View() == Picture(Empty(capacity), map[], None);
    SettlePlaces(r, e, 0, Some(capacity));
    PlacedWhole(r.View(), e, Some(capacity));
    PlacedWhole(r.View(), e, Some(|data|));
  }

  /** `p` is `r` after the offer of a slice of `s`, on which no assertion stops the program. */
  ghost predicate Offered(r: Reassembler, p: Reassembler, s: seq<Byte>, lo: nat, hi: nat) {
    && lo <= hi <= |s| && r.WellFormed() && !Aborts(r.out, s[lo..hi], lo)
    && p == Push(r, s[lo..hi], lo, false)
  }

  /** Four offers of slices of `s`, with a read before the last, to a reassembler with room for four bytes. */
  ghost predicate FourOffers(rs: seq<Reassembler>, s: seq<Byte>) {
    && |rs| == 6 && rs[0] == EmptyReassembler(4)
    && Offered(rs[0], rs[1], s, 0, 3) && Offered(rs[1], rs[2], s, 6, 7) && Offered(rs[2], rs[3], s, 3, 5)
    && rs[3].out.WellFormed() && rs[4] == rs[3].(out := rs[3].out.Pop(4))
    && Offered(rs[4], rs[5], s, 4, 6)
  }

  /** Why offers must conform: the second offer is beyond the reader's room and does not, and the last byte is taken
      from the wrong slot. Whenever the bytes at 3 and 6 differ, what is delivered is not the stream. */
  lemma Misassembles(s: seq<Byte>)
    requires 7 <= |s|
    ensures exists rs: seq<Reassembler> :: FourOffers(rs, s) && rs[1].InWindow()
                         && !Conforms(rs[1].out, s[6..7], 6, false)
                         && rs[5].out.written == s[..6] + [s[3]]
                         && (s[3] != s[6] ==> !(rs[5].out.written <= s))
  {
    hide Push, Aborts, Conforms, Beyond;
    var r0 := EmptyReassembler(4);
    assert r0.ring == [0, 0, 0, 0];
    GapStep1(r0, s);
    var r1 := Push(r0, s[0..3], 0, false);
    GapStep2(r1, s);
    var r2 := Push(r1, s[6..7], 6, false);
    GapStep3(r2, s);
    var r3 := Push(r2, s[3..5], 3, false);
    var r4 := r3.(out := r3.out.Pop(4));
    GapStep4(r4, s);
    var r5 := Push(r4, s[4..6], 4, false);
    var rs := [r0, r1, r2, r3, r4, r5];
    assert FourOffers(rs, s);
  }

  /** A ring of four with two bytes written at its start, and the same ring two places on. */
  lemma RingOfFour(a: Byte, b: Byte, c: Byte, d: Byte, x: Byte, y: Byte)
    ensures Splice([a, b, c, d], 0, [x, y]) == [x, y, c, d]
    ensures Rotate([x, y, c, d], 2) == [c, d, x, y] && [x, y, c, d][..2] == [x, y] && [x, y, c, d][..3] == [x, y, c]
  {
  }

  lemma GapStep1(r: Reassembler, s: seq<Byte>)
    requires 7 <= |s| && r == EmptyReassembler(4)
    ensures r.WellFormed() && !Aborts(r.out, s[0..3], 0)
    ensures Push(r, s[0..3], 0, false) ==
            Reassembler(Stream(4, s[..3], 0, false, false), [0, s[0], s[1], s[2]], {}, None)
  {
    hide Push, Aborts, Splice, Rotate;
    var piece := [s[0], s[1], s[2]];
    assert s[0..3] == piece == s[..3];
    assert r.ring == [0, 0, 0, 0];
    PushedPiece(r, piece, 0, 3);
    RingFilled(s[0], s[1], s[2]);
    assert [] + piece == piece;
  }

  lemma RingFilled(x: Byte, y: Byte, z: Byte)
    ensures Splice([0, 0, 0, 0], 0, [x, y, z]) == [x, y, z, 0]
    ensures Rotate([x, y, z, 0], 3) == [0, x, y, z] && [x, y, z, 0][..3] == [x, y, z]
  {
  }

  lemma GapStep2(r: Reassembler, s: seq<Byte>)
    requires 7 <= |s| && r == Reassembler(Stream(4, s[..3], 0, false, false), [0, s[0], s[1], s[2]], {}, None)
    ensures r.InWindow() && !Aborts(r.out, s[6..7], 6) && !Conforms(r.out, s[6..7], 6, false)
    ensures Push(r, s[6..7], 6, false) == r.(ring := [0, s[0], s[1], s[6]], held := {6})
  {
    hide Push, Aborts;
    PushedPiece(r, s[6..7], 6, 3);
    assert Splice(r.ring, 3, s[6..7]) == [0, s[0], s[1], s[6]];
    assert r.out.Write([]) == r.out;
  }

  /** Which indices are covered once the gap before index 6 is partly filled. */
  lemma GapHeld(r: Reassembler, piece: seq<Byte>, start: nat, end: nat)
    requires r.held == {6} && |piece| == 2 && r.Next() == start
    requires (start == 3 && end == 5) || (start == 4 && end == 7)
    ensures end !in HeldWith(r, piece, start)
    ensures forall i: nat :: start <= i < end ==> i in HeldWith(r, piece, start)
    ensures start == 3 ==> Beyond(HeldWith(r, piece, start), end) == {6}
  {
    var held := HeldWith(r, piece, start);
    forall i: nat | start <= i < end
      ensures i in held
    {
      assert i < start + 2 ==> Between(start, i, start + 2);
    }
    if start == 3 {
      assert Beyond(held, 5) == {6};
    }
  }

  lemma GapStep3(r: Reassembler, s: seq<Byte>)
    requires 7 <= |s| && r == Reassembler(Stream(4, s[..3], 0, false, false), [0, s[0], s[1], s[6]], {6}, None)
    ensures r.WellFormed() && !Aborts(r.out, s[3..5], 3)
    ensures Push(r, s[3..5], 3, false) ==
            Reassembler(Stream(4, s[..4], 0, false, false), [s[1], s[6], s[3], s[4]], {6}, None)
  {
    hide Push, Aborts, HeldWith, Beyond, Splice, Rotate;
    var piece := [s[3], s[4]];
    assert s[3..5] == piece;
    GapHeld(r, piece, 3, 5);
    PushedPiece(r, piece, 3, 5);
    RingOfFour(0, s[0], s[1], s[6], s[3], s[4]);
    assert r.out.Accepted(piece) == [s[3]];
    assert s[..3] + [s[3]] == s[..4];
  }

  lemma GapStep4(r: Reassembler, s: seq<Byte>)
    requires 7 <= |s| && r == Reassembler(Stream(4, s[..4], 4, false, false), [s[1], s[6], s[3], s[4]], {6}, None)
    ensures r.WellFormed() && !Aborts(r.out, s[4..6], 4)
    ensures Push(r, s[4..6], 4, false).out.written == s[..6] + [s[3]]
  {
    hide Push, Aborts, HeldWith, Beyond, Splice, Rotate;
    var piece := [s[4], s[5]];
    assert s[4..6] == piece;
    GapHeld(r, piece, 4, 7);
    PushedPiece(r, piece, 4, 7);
    RingOfFour(s[1], s[6], s[3], s[4], s[4], s[5]);
    assert r.out.Accepted([s[4], s[5], s[3]]) == [s[4], s[5], s[3]];
    assert s[..4] + [s[4], s[5], s[3]] == s[..6] + [s[3]];
  }
}
