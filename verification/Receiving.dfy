/** The receiving half of a connection, as a value. */
module Receiving {
  import opened Bytes
  import opened WrappingIntegers
  import opened Segments
  import opened Reassembly

  datatype ReceiverState = Error | Listen | SynRecv | FinRecv

  datatype Receiver = Receiver(reasm: Reassembler, isn: Option<U32>, listening: bool) {

    ghost predicate WellFormed() {
      reasm.WellFormed() && (listening <==> isn.None?) && (listening ==> !reasm.out.ended)
    }

    function State(): ReceiverState {
      if reasm.out.error then Error
      else if listening then Listen
      else if reasm.out.ended then FinRecv
      else SynRecv
    }

    /** Sequence numbers received without a gap, SYN and FIN included; an error does not take them back. */
    function Progress(): nat {
      if listening then 0 else reasm.Next() + if reasm.out.ended then 2 else 1
    }

    function AbsAck(): nat {
      match State()
      case SynRecv => reasm.Next() + 1
      case FinRecv => reasm.Next() + 2
      case _ => 0
    }

    function AckNo(): Option<U32>
      requires listening || isn.Some?
    {
      if State().Error? || State().Listen? then None else Some(Wrap(AbsAck(), isn.value))
    }

    function Window(): int {
      reasm.out.capacity - reasm.out.Size()
    }
  }

  function NewReceiver(capacity: nat): Receiver {
    Receiver(EmptyReassembler(capacity), None, true)
  }

  /** A SYN ends listening and fixes the peer's initial sequence number. */
  function Opened(r: Receiver, seg: TcpSegment): Receiver {
    if r.State().Listen? && seg.header.syn then r.(listening := false, isn := Some(seg.header.seqno)) else r
  }

  /** The absolute number of the first payload byte, judged by the acknowledgement number. */
  function DataStart(r: Receiver, seg: TcpSegment): nat
    requires r.isn.Some?
  {
    Unwrap(Advance(seg.header.seqno, if seg.header.syn then 1 else 0), r.isn.value, r.AbsAck())
  }

  ghost function SegmentReceived(r: Receiver, seg: TcpSegment): Receiver
    requires r.reasm.WellFormed() && Receivable(r, seg)
  {
    if r.State().Listen? && !seg.header.syn then r
    else
      var r1 := Opened(r, seg);
      var start := DataStart(r1, seg);
      if start == 0 then r1
      else r1.(reasm := Push(r1.reasm, seg.payload, start - 1, seg.header.fin))
  }

  /** The offer a segment makes to the reassembler does not trip its assertion. */
  predicate Receivable(r: Receiver, seg: TcpSegment) {
    && (r.State().Listen? || r.isn.Some?)
    && (r.State().Listen? ==> seg.header.syn ==> OfferTaken(Opened(r, seg), seg))
    && (!r.State().Listen? ==> OfferTaken(r, seg))
  }

  predicate OfferTaken(r: Receiver, seg: TcpSegment)
    requires r.isn.Some?
  {
    DataStart(r, seg) == 0 || !Aborts(r.reasm.out, seg.payload, DataStart(r, seg) - 1)
  }

  /** The peer keeps to the advertised window: what it sends conforms, as `Reassembly.Conforms` says. */
  predicate KeepsToWindow(r: Receiver, seg: TcpSegment) {
    && (r.State().Listen? || r.isn.Some?)
    && (r.State().Listen? ==> seg.header.syn ==> OfferConforms(Opened(r, seg), seg))
    && (!r.State().Listen? ==> OfferConforms(r, seg))
  }

  predicate OfferConforms(r: Receiver, seg: TcpSegment)
    requires r.isn.Some?
  {
    DataStart(r, seg) == 0 || Conforms(r.reasm.out, seg.payload, DataStart(r, seg) - 1, seg.header.fin)
  }

  /** A peer that keeps to the window never trips the reassembler, and leaves it within its room. */
  lemma KeptWindow(r: Receiver, seg: TcpSegment)
    requires r.WellFormed() && r.reasm.InWindow() && KeepsToWindow(r, seg)
    ensures Receivable(r, seg) && SegmentReceived(r, seg).reasm.InWindow()
  {
    hide DataStart, Push, Aborts;
    var r1 := Opened(r, seg);
    if r1.isn.Some? && OfferConforms(r1, seg) {
      OfferKept(r1, seg);
    }
    hide OfferConforms, OfferTaken;
  }

  lemma OfferKept(r: Receiver, seg: TcpSegment)
    requires r.reasm.InWindow() && r.isn.Some? && OfferConforms(r, seg)
    ensures OfferTaken(r, seg)
    ensures DataStart(r, seg) > 0 ==> Push(r.reasm, seg.payload, DataStart(r, seg) - 1, seg.header.fin).InWindow()
  {
    hide DataStart, Push, Aborts, Conforms;
    var start := DataStart(r, seg);
    if start > 0 {
      PushAsDocumented(r.reasm, seg.payload, start - 1, seg.header.fin);
      PushKeepsWindow(r.reasm, seg.payload, start - 1, seg.header.fin);
    }
  }

  /** Any segment that does not trip the reassembler leaves the receiver well formed. */
  lemma ReceiveKeeps(r: Receiver, seg: TcpSegment)
    requires r.WellFormed() && Receivable(r, seg)
    ensures SegmentReceived(r, seg).WellFormed()
  {
    hide Unwrap, Push;
    var r1 := Opened(r, seg);
    if r1.isn.Some? && DataStart(r1, seg) > 0 {
      PushContinues(r1.reasm, seg.payload, DataStart(r1, seg) - 1, seg.header.fin);
    }
  }

  /** Sequence numbers and room advertised to the peer, as absolute numbers. */
  function RightEdge(r: Receiver): int {
    r.AbsAck() + r.Window()
  }

  /** Receiving anything moves neither the acknowledgement nor the right edge of the window back. */
  lemma ReceiveAdvances(r: Receiver, seg: TcpSegment)
    requires r.WellFormed() && !r.reasm.out.error && Receivable(r, seg)
    ensures var q := SegmentReceived(r, seg);
            && r.AbsAck() <= q.AbsAck() && !q.reasm.out.error
            && (!r.listening ==> RightEdge(r) <= RightEdge(q))
            && (r.State().SynRecv? ==> !q.State().Listen?) && (r.State().FinRecv? ==> q.State().FinRecv?)
  {
    hide Unwrap, Push;
    var r1 := Opened(r, seg);
    if r1.isn.Some? && DataStart(r1, seg) > 0 {
      PushContinues(r1.reasm, seg.payload, DataStart(r1, seg) - 1, seg.header.fin);
    }
  }

  /** Reading moves neither of them back, and opens the window by what was read. */
  lemma ReadAdvances(r: Receiver, len: nat)
    requires r.WellFormed() && !r.reasm.out.error
    ensures var q := ReadBy(r, len);
            && q.WellFormed() && q.AbsAck() == r.AbsAck() && q.State() == r.State()
            && RightEdge(q) == RightEdge(r) + Min(len, r.reasm.out.Size())
  {
  }

  function ReadBy(r: Receiver, len: nat): Receiver
    requires r.reasm.out.WellFormed()
  {
    r.(reasm := r.reasm.(out := r.reasm.out.Pop(len)))
  }

  /** The advertised right edge is the reader's room: it never counts bytes still being read. */
  lemma RightEdgeIsLimit(r: Receiver)
    requires r.WellFormed() && !r.reasm.out.error && !r.listening
    ensures r.AbsAck() == r.Progress()
    ensures RightEdge(r) == r.reasm.Limit() + (if r.reasm.out.ended then 2 else 1)
  {
  }

  // ---- what any peer's segment brings ----

  /** By its number the payload starts at stream index `lo`, and the number is near enough to the next one expected to
      be read rightly; a SYN in front of the payload takes up a number of its own. */
  predicate StartsAt(seg: TcpSegment, r: Receiver, lo: nat) {
    && (r.listening ==> seg.header.syn) && (r.listening || r.isn.Some?)
    && seg.header.seqno == Wrap(if seg.header.syn then lo else lo + 1,
                                if r.listening then seg.header.seqno else r.isn.value)
    && var ack := r.reasm.Next() + if r.reasm.out.ended then 2 else 1;
       if lo + 1 < ack then ack - (lo + 1) <= TWO31 else lo + 1 - ack < TWO31 || lo + 1 < TWO32
  }

  lemma StartsThere(r: Receiver, seg: TcpSegment, lo: nat)
    requires r.WellFormed() && !r.reasm.out.error && StartsAt(seg, r, lo)
    ensures Opened(r, seg).isn.Some? && DataStart(Opened(r, seg), seg) == lo + 1
  {
    var r1 := Opened(r, seg);
    var isn := r1.isn.value;
    WrapShift(lo, isn, 1);
    assert Advance(seg.header.seqno, 0) == seg.header.seqno;
    UnwrapRecovers(lo + 1, isn, r1.AbsAck());
    hide Wrap, Unwrap, Advance;
  }

  /** Any segment that carries a slice of a fixed stream, SYN or not, FIN or not: exactly the part the reader has room
      for has been received afterwards, and the end is known if it was or if the segment carries it. */
  lemma SliceReceived(r: Receiver, seg: TcpSegment, s: seq<Byte>, lo: nat, hi: nat)
    requires r.WellFormed() && !r.reasm.out.error && r.reasm.InWindow() && r.reasm.Agrees(s)
    requires lo <= hi <= |s| && seg.payload == s[lo..hi] && (seg.header.fin ==> hi == |s|)
    requires StartsAt(seg, r, lo) && Conforms(r.reasm.out, s[lo..hi], lo, seg.header.fin)
    ensures Receivable(r, seg)
    ensures var q := SegmentReceived(r, seg);
            && !q.listening && q.isn == (if r.listening then Some(seg.header.seqno) else r.isn)
            && q.reasm.InWindow() && q.reasm.Agrees(s)
            && q.reasm.out == r.reasm.out.(written := q.reasm.out.written, ended := q.reasm.out.ended)
            && (forall i: nat :: q.reasm.Has(i) <==> r.reasm.Has(i) || lo <= i < Min(hi, r.reasm.Limit()))
            && q.reasm.eof == (if seg.header.fin then Some(|s|) else r.reasm.eof)
            && (q.reasm.out.ended <==>
                  r.reasm.out.ended || (r.reasm.Next() <= hi && q.reasm.eof == Some(q.reasm.Next())))
  {
    hide Push, Aborts, Conforms, DataStart, Wrap, StartsAt, Gains;
    StartsThere(r, seg, lo);
    PushAgrees(r.reasm, s, lo, hi, seg.header.fin);
    var p := Push(r.reasm, s[lo..hi], lo, seg.header.fin);
    GainsMeans(r.reasm, p, s, lo, Min(hi, r.reasm.Limit()));
    SliceLeft(r, seg, lo);
  }

  lemma SliceLeft(r: Receiver, seg: TcpSegment, lo: nat)
    requires r.WellFormed() && !r.reasm.out.error && StartsAt(seg, r, lo)
    requires Opened(r, seg).isn.Some? && DataStart(Opened(r, seg), seg) == lo + 1
    requires !Aborts(r.reasm.out, seg.payload, lo)
    ensures Receivable(r, seg)
    ensures SegmentReceived(r, seg) == Opened(r, seg).(reasm := Push(r.reasm, seg.payload, lo, seg.header.fin))
  {
    hide Push, Aborts, DataStart, Wrap;
  }

  /** So a first segment may bring a whole stream at once. */
  lemma FirstSegmentBrings(capacity: nat, seg: TcpSegment)
    requires 0 < capacity && seg.header.syn && |seg.payload| <= capacity
    ensures Receivable(NewReceiver(capacity), seg)
    ensures var q := SegmentReceived(NewReceiver(capacity), seg);
            && q.reasm.out.written == seg.payload && q.reasm.out.ended == seg.header.fin && q.reasm.held == {}
            && q.AbsAck() == 1 + |seg.payload| + (if seg.header.fin then 1 else 0)
            && q.AckNo() == Some(Advance(seg.header.seqno, q.AbsAck() % TWO32))
  {
    hide SegmentReceived, Receivable, Conforms, Wrap, StartsAt;
    var r, d := NewReceiver(capacity), seg.payload;
    assert d[0..|d|] == d;
    StartsFirst(r, seg);
    OfferableConforms(r.reasm.out, d, 0, seg.header.fin);
    SliceReceived(r, seg, d, 0, |d|);
    var q := SegmentReceived(r, seg);
    HasWhole(q.reasm, d);
    NumberWrapped(seg.header.seqno, q.AbsAck());
  }

  lemma NumberWrapped(isn: U32, n: nat)
    ensures Wrap(n, isn) == Advance(isn, n % TWO32)
  {
  }

  lemma StartsFirst(r: Receiver, seg: TcpSegment)
    requires r.listening && seg.header.syn
    requires r.reasm.Next() == 0 && !r.reasm.out.ended
    ensures StartsAt(seg, r, 0)
  {
    assert Wrap(0, seg.header.seqno) == seg.header.seqno;
    hide Wrap;
  }

  /** Having exactly the indices of `s` means having assembled it. */
  lemma HasWhole(r: Reassembler, s: seq<Byte>)
    requires r.Agrees(s) && forall i: nat :: r.Has(i) <==> i < |s|
    ensures r.out.written == s && r.held == {}
  {
    assert !r.Has(r.Next());
    assert r.Next() == |s|;
    assert forall i :: i in r.held ==> r.Has(i);
  }

  /** Without a SYN a listening receiver takes nothing in, and the number of the SYN itself carries nothing. */
  lemma NothingTaken(r: Receiver, seg: TcpSegment)
    requires r.WellFormed() && !r.reasm.out.error && !seg.header.syn
    requires r.listening || (r.isn == Some(seg.header.seqno) && r.Progress() <= TWO31)
    ensures Receivable(r, seg) && SegmentReceived(r, seg) == r
  {
    if !r.listening {
      assert Wrap(0, seg.header.seqno) == seg.header.seqno == Advance(seg.header.seqno, 0);
      UnwrapRecovers(0, seg.header.seqno, r.AbsAck());
    }
    hide Unwrap, Wrap, Push;
  }
}
