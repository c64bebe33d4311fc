/** What every call of the sender keeps: the segments it sent tile the sequence space and carry the stream. */
module SenderInvariants {
  import opened Bytes
  import opened WrappingIntegers
  import opened Segments
  import opened Sending

  const MAX_WINDOW: nat := 65535

  function Pow2(n: nat): (r: nat)
    ensures 0 < r
  {
    if n == 0 then 1 else 2 * Pow2(n - 1)
  }

  /** The payload is what stands at its place in the stream, and FIN marks the end of the ended stream. */
  predicate CarriesSlice(p: Packet, written: seq<Byte>, ended: bool) {
    && 1 <= p.abs
    && p.abs - 1 + |p.seg.payload| <= |written|
    && p.seg.payload == written[p.abs - 1..p.abs - 1 + |p.seg.payload|]
    && (p.seg.header.fin ==> ended && p.abs - 1 + |p.seg.payload| == |written|)
  }

  predicate Bare(p: Packet) {
    p.seg.payload == [] && !p.seg.header.fin
  }

  /** A segment this sender really sent: the SYN, a segment with no content, or a slice of the stream. */
  predicate Genuine(p: Packet, s: Sender) {
    && p.End() <= s.nextSeq
    && p.seg.header.seqno == Wrap(p.abs, s.isn)
    && |p.seg.payload| <= MAX_PAYLOAD_SIZE
    && if p.seg.header.syn then p.abs == 0 && Bare(p) else Bare(p) || CarriesSlice(p, s.stream.written, s.stream.ended)
  }

  /** On the sender's own queue a segment has not been given an acknowledgement yet, and is no reset. */
  predicate Queued(p: Packet, s: Sender) {
    Genuine(p, s) && !p.seg.header.ack && !p.seg.header.rst
  }

  /** Entry `k` starts where the one before ends, is not empty, and carries its slice; only the first is SYN. */
  predicate Entry(sent: seq<Packet>, k: nat, isn: U32, written: seq<Byte>, ended: bool)
    requires k < |sent|
  {
    var p := sent[k];
    && p.abs == (if k == 0 then 0 else sent[k - 1].End())
    && p.seg.header.seqno == Wrap(p.abs, isn)
    && 0 < p.seg.Length() && |p.seg.payload| <= MAX_PAYLOAD_SIZE
    && (p.seg.header.syn <==> k == 0) && !p.seg.header.ack && !p.seg.header.rst
    && (if k == 0 then Bare(p) else CarriesSlice(p, written, ended))
    && (p.seg.header.fin ==> k == |sent| - 1)
  }

  /** First transmissions: SYN, then consecutive non-empty slices, FIN nowhere but last. */
  ghost predicate LogValid(s: Sender) {
    && (forall k :: 0 <= k < |s.sent| ==> Entry(s.sent, k, s.isn, s.stream.written, s.stream.ended))
    && (s.sent == [] ==> s.nextSeq == 0 == s.stream.read)
    && (s.sent != [] ==> s.nextSeq == s.sent[|s.sent| - 1].End())
    && (s.sent != [] ==> s.nextSeq == s.stream.read + if FinSentBy(s) then 2 else 1)
  }

  predicate FinSentBy(s: Sender) {
    s.sent != [] && s.sent[|s.sent| - 1].seg.header.fin
  }

  /** Outstanding segments are the latest first transmissions, and the last acknowledgement lies in the oldest. */
  ghost predicate QueueValid(s: Sender) {
    && |s.outstanding| <= |s.sent|
    && (forall j :: 0 <= j < |s.outstanding| ==> s.outstanding[j] == s.sent[|s.sent| - |s.outstanding| + j].seg)
    && s.inFlight == s.nextSeq - s.Front()
    && s.Front() <= s.lastAck <= s.nextSeq
    && (s.outstanding == [] ==> s.lastAck == s.nextSeq)
    && (s.outstanding != [] ==> s.lastAck < s.Front() + s.outstanding[0].Length())
    && s.nextSeq - s.lastAck <= MAX_WINDOW && s.window <= MAX_WINDOW
    && (FinSentBy(s) ==> 0 < s.Front())
  }

  /** The timer runs exactly while something is outstanding, its timeout has doubled once for each
      retransmission counted, and at least the sum of the timeouts so far has passed. */
  ghost predicate TimerValid(s: Sender) {
    && (s.timer.started <==> s.outstanding != [])
    && s.timer.timeout == s.initRto * Pow2(s.retx)
    && (!s.timer.started ==> s.retx == 0)
    && s.quiet >= s.initRto * (Pow2(s.retx) - 1) + (if s.timer.started then s.timer.elapsed else 0)
  }

  ghost predicate Inv(s: Sender) {
    && s.stream.WellFormed()
    && LogValid(s) && QueueValid(s) && TimerValid(s)
    && forall p :: p in s.out ==> Queued(p, s)
  }

  /** How a sender may change: histories grow, acknowledged numbers do not go back, an ended stream stays as it is. */
  predicate Advances(s: Sender, t: Sender) {
    && t.isn == s.isn && t.initRto == s.initRto && t.stream.capacity == s.stream.capacity
    && s.nextSeq <= t.nextSeq && s.lastAck <= t.lastAck && s.sent <= t.sent && s.Front() <= t.Front()
    && s.stream.written <= t.stream.written && s.stream.read <= t.stream.read
    && (s.stream.ended ==> t.stream.ended && t.stream.written == s.stream.written)
    && (s.stream.error ==> t.stream.error)
  }

  lemma GenuineStays(p: Packet, s: Sender, t: Sender)
    requires Genuine(p, s) && Advances(s, t)
    ensures Genuine(p, t)
  {
    if !Bare(p) {
      SlicePrefix(s.stream.written, t.stream.written, p.abs - 1, p.abs - 1 + |p.seg.payload|);
    }
  }

  lemma SlicePrefix<T>(a: seq<T>, b: seq<T>, i: nat, j: nat)
    requires a <= b && i <= j <= |a|
    ensures a[i..j] == b[i..j]
  {
  }

  lemma NewSenderInv(isn: U32, capacity: nat, rto: nat)
    requires 0 < capacity
    ensures Inv(NewSender(isn, capacity, rto))
  {
  }

  // ---- sending ----

  /** Appending one segment that continues the stream keeps the log in order. */
  lemma SendKeepsLog(s: Sender, seg: TcpSegment, t: Sender)
    requires LogValid(s) && !FinSentBy(s)
    requires seg.header.seqno == Wrap(s.nextSeq, s.isn)
    requires 0 < seg.Length() && |seg.payload| <= MAX_PAYLOAD_SIZE && !seg.header.ack && !seg.header.rst
    requires seg.header.syn <==> s.sent == []
    requires if s.sent == [] then Bare(Packet(seg, s.nextSeq, 0))
             else CarriesSlice(Packet(seg, s.nextSeq, 0), s.stream.written, s.stream.ended)
    requires t == SendSegment(s, seg).(stream := s.stream.(read := s.stream.read + |seg.payload|))
    ensures LogValid(t) && (FinSentBy(t) <==> seg.header.fin)
  {
    hide CarriesSlice, Wrap;
    forall k | 0 <= k < |t.sent|
      ensures Entry(t.sent, k, t.isn, t.stream.written, t.stream.ended)
    {
      if k < |s.sent| {
        assert Entry(s.sent, k, s.isn, s.stream.written, s.stream.ended);
        assert k == |s.sent| - 1 ==> !s.sent[k].seg.header.fin;
      }
    }
  }

  lemma SendKeepsQueue(s: Sender, seg: TcpSegment, t: Sender)
    requires QueueValid(s) && 0 < seg.Length() && s.nextSeq + seg.Length() - s.lastAck <= MAX_WINDOW
    requires !FinSentBy(s) && (seg.header.fin ==> 0 < s.Front())
    requires t == SendSegment(s, seg).(stream := t.stream)
    ensures QueueValid(t) && t.Front() == s.Front()
  {
  }

  lemma SendKeepsTimer(s: Sender, seg: TcpSegment)
    requires TimerValid(s)
    ensures TimerValid(SendSegment(s, seg))
  {
  }

  lemma SendKeepsOut(s: Sender, seg: TcpSegment, t: Sender)
    requires forall p :: p in s.out ==> Queued(p, s)
    requires Advances(s, t) && t.out == s.out + [Packet(seg, s.nextSeq, 0)]
    requires Queued(Packet(seg, s.nextSeq, 0), t)
    ensures forall p :: p in t.out ==> Queued(p, t)
  {
    forall p | p in t.out
      ensures Queued(p, t)
    {
      if p in s.out {
        GenuineStays(p, s, t);
      }
    }
  }

  /** Where the window let a new segment go: up to its right edge, or one number into a shut window. */
  predicate Admitted(p: Packet, lastAck: nat, window: nat) {
    p.End() <= lastAck + window || (p.abs == lastAck && p.seg.Length() == 1 && window == 0)
  }

  lemma SendSynInv(s: Sender)
    requires Inv(s) && s.State().Closed?
    ensures var t := SendSegment(s, SynSegment(s.isn));
            Inv(t) && Advances(s, t) && t.State().SynSent?
  {
    hide CarriesSlice, Pow2;
    var seg := SynSegment(s.isn);
    var t := SendSegment(s, seg);
    LogStart(s);
    SendKeepsLog(s, seg, t);
    SendKeepsQueue(s, seg, t);
    SendKeepsTimer(s, seg);
    assert Queued(Packet(seg, 0, 0), t);
    SendKeepsOut(s, seg, t);
    hide LogValid, QueueValid, TimerValid, Genuine;
  }

  lemma LogStart(s: Sender)
    requires LogValid(s) && s.nextSeq == 0
    ensures s.sent == [] && s.isn == Wrap(0, s.isn)
  {
  }

  /** Once FIN is out, the stream is used up and nothing more can be sent. */
  lemma FinSentMeans(s: Sender)
    requires Inv(s) && FinSentBy(s)
    ensures s.stream.ended && s.stream.read == |s.stream.written| && s.nextSeq == |s.stream.written| + 2
    ensures !CanSend(s)
    ensures !s.stream.error ==> s.State() == if s.inFlight != 0 then FinSent else FinAcked
  {
    assert Entry(s.sent, |s.sent| - 1, s.isn, s.stream.written, s.stream.ended);
  }

  /** The SYN is acknowledged exactly when anything is. */
  lemma SynAckedMeans(s: Sender)
    requires Inv(s) && !s.stream.error && 0 < s.nextSeq
    ensures s.nextSeq == s.inFlight <==> s.lastAck == 0
    ensures s.State().SynAcked? <==> 0 < s.lastAck && !FinSentBy(s)
  {
    hide TimerValid, Genuine, CarriesSlice, Wrap;
    if s.outstanding != [] {
      var i := |s.sent| - |s.outstanding|;
      assert Entry(s.sent, i, s.isn, s.stream.written, s.stream.ended);
      assert i > 0 ==> Entry(s.sent, i - 1, s.isn, s.stream.written, s.stream.ended);
    }
    if FinSentBy(s) {
      FinSentMeans(s);
    }
  }

  /** The segment a pass of the loop sends is the next slice of the stream, with FIN only at its end. */
  lemma NextSegmentCarries(s: Sender)
    requires s.stream.WellFormed() && s.lastAck <= s.nextSeq && s.nextSeq == s.stream.read + 1
    ensures var seg := NextSegment(s);
            && CarriesSlice(Packet(seg, s.nextSeq, 0), s.stream.written, s.stream.ended)
            && |seg.payload| == SendSize(s) <= MAX_PAYLOAD_SIZE
            && !seg.header.syn && !seg.header.ack && !seg.header.rst && seg.header.seqno == Wrap(s.nextSeq, s.isn)
            && (seg.header.fin ==> s.NeedsFin())
  {
    hide Wrap;
    var n := SendSize(s);
    SliceOfSlice(s.stream.written, s.stream.read, |s.stream.written|, 0, n);
  }

  lemma FillStepInv(s: Sender)
    requires Inv(s) && CanSend(s) && s.nextSeq > 0
    ensures var t := FillStep(s);
            && Inv(t) && Advances(s, t)
            && t.out == s.out + [Packet(NextSegment(s), s.nextSeq, 0)]
            && t.sent == s.sent + [Packet(NextSegment(s), s.nextSeq, 0)]
            && Admitted(Packet(NextSegment(s), s.nextSeq, 0), s.lastAck, s.window)
  {
    hide CarriesSlice, Pow2, Genuine, TimerValid, Wrap;
    var seg := NextSegment(s);
    var t := FillStep(s);
    FillStepProgress(s);
    if FinSentBy(s) {
      FinSentMeans(s);
    }
    NextSegmentCarries(s);
    hide NextSegment, SendSize, LogValid, QueueValid;
    StepLogAndQueue(s, seg, t);
    SendKeepsTimer(s, seg);
    TimerIgnoresStream(SendSegment(s, seg), t);
    assert Genuine(Packet(seg, s.nextSeq, 0), t) by {
      GenuineNew(s, seg, t);
    }
    SendKeepsOut(s, seg, t);
  }

  lemma TimerIgnoresStream(s: Sender, t: Sender)
    requires TimerValid(s)
    requires t == s.(stream := t.stream)
    ensures TimerValid(t)
  {
  }

  lemma GenuineNew(s: Sender, seg: TcpSegment, t: Sender)
    requires t.nextSeq == s.nextSeq + seg.Length() && t.isn == s.isn
    requires !seg.header.syn && seg.header.seqno == Wrap(s.nextSeq, s.isn) && |seg.payload| <= MAX_PAYLOAD_SIZE
    requires CarriesSlice(Packet(seg, s.nextSeq, 0), t.stream.written, t.stream.ended)
    ensures Genuine(Packet(seg, s.nextSeq, 0), t)
  {
    hide CarriesSlice, Wrap;
  }

  lemma StepLogAndQueue(s: Sender, seg: TcpSegment, t: Sender)
    requires Inv(s) && !FinSentBy(s) && s.nextSeq > 0
    requires !seg.header.syn && !seg.header.ack && !seg.header.rst && seg.header.seqno == Wrap(s.nextSeq, s.isn)
    requires 0 < seg.Length() && |seg.payload| <= MAX_PAYLOAD_SIZE
    requires CarriesSlice(Packet(seg, s.nextSeq, 0), s.stream.written, s.stream.ended)
    requires s.nextSeq + seg.Length() - s.lastAck <= MAX_WINDOW
    requires seg.header.fin ==> s.NeedsFin()
    requires t == SendSegment(s, seg).(stream := s.stream.(read := s.stream.read + |seg.payload|))
    ensures LogValid(t) && QueueValid(t) && t.Front() == s.Front()
  {
    hide CarriesSlice, Wrap, TimerValid, Genuine, Entry;
    SendKeepsLog(s, seg, t);
    SendKeepsQueue(s, seg, t);
  }

  /** Filling the window: everything new is a first transmission within the window. */
  ghost predicate Filled(s: Sender, t: Sender) {
    && Inv(t) && Advances(s, t)
    && t.lastAck == s.lastAck && t.window == s.window && t.retx == s.retx
    && t.stream.written == s.stream.written && t.stream.ended == s.stream.ended && t.stream.error == s.stream.error
    && s.out <= t.out && s.sent <= t.sent && t.out[|s.out|..] == t.sent[|s.sent|..]
    && forall k :: |s.sent| <= k < |t.sent| ==> Admitted(t.sent[k], s.lastAck, s.window)
  }

  lemma {:induction false} FillLoopInv(s: Sender)
    requires Inv(s) && s.nextSeq > 0
    ensures Filled(s, FillLoop(s)) && !CanSend(FillLoop(s))
    decreases s.FreeWindow()
  {
    hide LogValid, TimerValid, Genuine, Admitted;
    if CanSend(s) {
      FillStepInv(s);
      FillStepProgress(s);
      var t := FillStep(s);
      FillLoopInv(t);
      FilledFrom(s, t, FillLoop(t), Packet(NextSegment(s), s.nextSeq, 0));
    }
  }

  lemma FilledFrom(s: Sender, t: Sender, u: Sender, p: Packet)
    requires Inv(t) && Advances(s, t) && Filled(t, u)
    requires t.lastAck == s.lastAck && t.window == s.window && t.retx == s.retx
    requires t.stream.written == s.stream.written && t.stream.ended == s.stream.ended
    requires t.stream.error == s.stream.error
    requires t.out == s.out + [p] && t.sent == s.sent + [p] && Admitted(p, s.lastAck, s.window)
    ensures Filled(s, u)
  {
    hide Inv, Admitted;
    assert u.sent[|s.sent|] == t.sent[|s.sent|] == p;
    assert u.out[|s.out|..] == [p] + u.out[|t.out|..];
    assert u.sent[|s.sent|..] == [p] + u.sent[|t.sent|..];
  }

  lemma FillWindowInv(s: Sender)
    requires Inv(s) && !s.stream.error
    ensures var t := FillWindow(s);
            && Inv(t) && Advances(s, t) && 0 < t.nextSeq
            && (s.nextSeq > 0 ==> Filled(s, t))
            && (s.nextSeq == 0 ==> t == SendSegment(s, SynSegment(s.isn)))
  {
    hide Inv;
    if s.State().Closed? {
      SendSynInv(s);
    } else {
      FillLoopInv(s);
    }
  }

  // ---- acknowledgements ----

  /** Every first transmission lies below the next sequence number. */
  lemma {:induction false} EntryBounds(s: Sender, i: nat)
    requires LogValid(s) && i < |s.sent|
    ensures s.sent[i].End() <= s.nextSeq
    decreases |s.sent| - i
  {
    hide CarriesSlice;
    if i + 1 < |s.sent| {
      EntryBounds(s, i + 1);
      assert Entry(s.sent, i + 1, s.isn, s.stream.written, s.stream.ended);
    }
  }

  /** The queue while the pop loop runs: as always, but judged by the acknowledgement being processed. */
  ghost predicate QueueAt(s: Sender, absAck: nat) {
    && |s.outstanding| <= |s.sent|
    && (forall j :: 0 <= j < |s.outstanding| ==> s.outstanding[j] == s.sent[|s.sent| - |s.outstanding| + j].seg)
    && s.inFlight == s.nextSeq - s.Front()
    && s.Front() <= absAck <= s.nextSeq
    && s.lastAck <= s.Front() + MAX_PAYLOAD_SIZE + 1 && s.nextSeq <= s.lastAck + MAX_WINDOW
  }

  /** Unwrapping the oldest outstanding segment's number recovers exactly the number it was sent with. */
  lemma FrontRecovered(s: Sender, absAck: nat)
    requires LogValid(s) && QueueAt(s, absAck) && s.outstanding != []
    ensures Unwrap(s.outstanding[0].header.seqno, s.isn, s.lastAck) == s.Front()
  {
    hide CarriesSlice, Unwrap, Wrap;
    var i := |s.sent| - |s.outstanding|;
    assert Entry(s.sent, i, s.isn, s.stream.written, s.stream.ended);
    EntryBounds(s, i);
    UnwrapRecovers(s.Front(), s.isn, s.lastAck);
  }

  lemma PopKeepsQueue(s: Sender, absAck: nat, t: Sender)
    requires LogValid(s) && QueueAt(s, absAck) && s.outstanding != []
    requires s.Front() + s.outstanding[0].Length() <= absAck
    requires t == s.(inFlight := s.inFlight - s.outstanding[0].Length(), outstanding := s.outstanding[1..])
    ensures QueueAt(t, absAck) && t.Front() == s.Front() + s.outstanding[0].Length()
  {
    hide CarriesSlice, Wrap;
    var i := |s.sent| - |s.outstanding|;
    assert s.outstanding[0] == s.sent[i].seg;
    if i + 1 < |s.sent| {
      assert Entry(s.sent, i + 1, s.isn, s.stream.written, s.stream.ended);
    }
  }

  /** The pop loop drops exactly the segments that end at or before the acknowledgement. */
  lemma {:induction false} PopAckedShape(s: Sender, absAck: nat)
    requires LogValid(s) && QueueAt(s, absAck)
    ensures var t := PopAcked(s, absAck);
            && QueueAt(t, absAck)
            && (t.outstanding == [] ==> absAck == t.nextSeq)
            && (t.outstanding != [] ==> absAck < t.Front() + t.outstanding[0].Length())
            && s.Front() <= t.Front()
            && t == s.(outstanding := t.outstanding, inFlight := t.inFlight, timer := t.timer)
            && t.timer == (if t.outstanding == [] then s.timer else s.timer.Restart())
    decreases |s.outstanding|
  {
    hide Unwrap, LogValid, QueueAt;
    if s.outstanding == [] {
      assert absAck == s.nextSeq by { EmptyQueueAt(s, absAck); }
    } else {
      FrontRecovered(s, absAck);
      var seg := s.outstanding[0];
      if s.Front() + seg.Length() <= absAck {
        var t := s.(inFlight := s.inFlight - seg.Length(), outstanding := s.outstanding[1..]);
        PopKeepsQueue(s, absAck, t);
        SameLog(s, t);
        PopAckedShape(t, absAck);
      } else {
        var t := s.(timer := s.timer.Restart());
        assert QueueAt(t, absAck) by { QueueIgnoresTimer(s, absAck, t); }
      }
    }
  }

  lemma EmptyQueueAt(s: Sender, absAck: nat)
    requires QueueAt(s, absAck) && s.outstanding == []
    ensures absAck == s.nextSeq
  {
  }

  lemma QueueIgnoresTimer(s: Sender, absAck: nat, t: Sender)
    requires QueueAt(s, absAck) && t == s.(timer := t.timer)
    ensures QueueAt(t, absAck)
  {
  }

  lemma SameLog(s: Sender, t: Sender)
    requires LogValid(s)
    requires t.sent == s.sent && t.isn == s.isn && t.nextSeq == s.nextSeq
    requires t.stream.read == s.stream.read && t.stream.written == s.stream.written && t.stream.ended == s.stream.ended
    ensures LogValid(t)
  {
    hide Entry;
  }

  /** An acknowledgement that does not advance at most changes the window. */
  lemma OldAckInv(s: Sender, win: U16)
    requires Inv(s)
    ensures Inv(s.(window := win)) && Advances(s, s.(window := win))
  {
    hide Entry, CarriesSlice;
    var t := s.(window := win);
    SameLog(s, t);
    forall p | p in t.out
      ensures Queued(p, t)
    {
      GenuineStays(p, s, t);
    }
  }

  /** The effect of an acknowledgement, whatever its number: ignored, a window update, or new data acknowledged. */
  ghost predicate Acked(s: Sender, t: Sender, absAck: nat, win: nat) {
    && Inv(t) && Advances(s, t)
    && t.out == s.out && t.stream == s.stream && t.nextSeq == s.nextSeq && t.sent == s.sent
    && s.Front() <= t.Front()
    && (t.lastAck == s.lastAck ==> t == s.(window := t.window))
    && t.window == (if s.lastAck <= absAck <= s.nextSeq then win else s.window)
    && t.lastAck == (if absAck <= s.nextSeq then Max(s.lastAck, absAck) else s.lastAck)
    && (s.lastAck < t.lastAck ==>
          t.retx == 0 && t.timer.timeout == s.initRto && t.timer.elapsed == 0 && t.quiet == 0)
  }

  lemma AckReceivedInv(s: Sender, ackno: U32, win: U16)
    requires Inv(s)
    ensures Acked(s, AckReceived(s, ackno, win), Unwrap(ackno, s.isn, s.lastAck), win)
  {
    hide Unwrap, LogValid, Genuine;
    var absAck := Unwrap(ackno, s.isn, s.lastAck);
    if absAck <= s.lastAck || absAck > s.nextSeq {
      OldAckInv(s, win);
    } else {
      NewAckInv(s, absAck, win);
    }
  }

  lemma NewAckInv(s: Sender, absAck: nat, win: U16)
    requires Inv(s) && s.lastAck < absAck <= s.nextSeq
    ensures var s1 := s.(timer := s.timer.ResetTo(s.initRto), retx := 0, quiet := 0);
            Acked(s, PopAcked(s1, absAck).(window := win, lastAck := absAck), absAck, win)
  {
    hide Entry, CarriesSlice, PopAcked;
    var s1 := s.(timer := s.timer.ResetTo(s.initRto), retx := 0, quiet := 0);
    FrontLength(s);
    SameLog(s, s1);
    assert QueueAt(s1, absAck);
    PopAckedShape(s1, absAck);
    var t := PopAcked(s1, absAck).(window := win, lastAck := absAck);
    SameLog(s, t);
    hide LogValid;
    assert t.Front() == PopAcked(s1, absAck).Front();
    assert QueueValid(t);
    assert TimerValid(t);
    forall p | p in t.out
      ensures Queued(p, t)
    {
      GenuineStays(p, s, t);
    }
  }

  lemma FrontLength(s: Sender)
    requires LogValid(s) && QueueValid(s)
    ensures s.lastAck <= s.Front() + MAX_PAYLOAD_SIZE + 1
  {
    hide CarriesSlice, Wrap;
    if s.outstanding != [] {
      var i := |s.sent| - |s.outstanding|;
      assert Entry(s.sent, i, s.isn, s.stream.written, s.stream.ended);
      assert s.outstanding[0] == s.sent[i].seg;
    }
  }

  // ---- time ----

  lemma PowStep(rto: nat, n: nat)
    ensures rto * Pow2(n) * 2 == rto * Pow2(n + 1)
    ensures rto * (Pow2(n) - 1) + rto * Pow2(n) == rto * (Pow2(n + 1) - 1)
  {
    assert Pow2(n + 1) == 2 * Pow2(n);
  }

  lemma ElapseTimer(s: Sender, ms: nat)
    requires TimerValid(s)
    ensures TimerValid(Elapse(s, ms))
  {
  }

  lemma RetransmitTimer(s: Sender)
    requires TimerValid(s) && s.timer.Expired()
    ensures TimerValid(Retransmit(s))
  {
    var a, b := s.initRto * Pow2(s.retx), s.initRto * (Pow2(s.retx) - 1);
    PowStep(s.initRto, s.retx);
    hide Pow2;
    assert s.quiet >= a + b;
  }

  /** The oldest outstanding segment, sent again, is the one that was sent first. */
  lemma FrontGenuine(s: Sender)
    requires LogValid(s) && QueueValid(s) && s.outstanding != []
    ensures Queued(Packet(s.outstanding[0], s.Front(), 0), s)
  {
    var i := |s.sent| - |s.outstanding|;
    assert Entry(s.sent, i, s.isn, s.stream.written, s.stream.ended);
    EntryBounds(s, i);
    hide CarriesSlice, Wrap;
    var p, q := s.sent[i], Packet(s.outstanding[0], s.Front(), 0);
    assert q.seg == p.seg && q.abs == p.abs;
    assert i > 0 ==> (CarriesSlice(p, s.stream.written, s.stream.ended) ==>
                        CarriesSlice(q, s.stream.written, s.stream.ended)) by {
      CarriesIgnoresAck(p, q, s.stream.written, s.stream.ended);
    }
  }

  lemma CarriesIgnoresAck(p: Packet, q: Packet, written: seq<Byte>, ended: bool)
    requires p.seg == q.seg && p.abs == q.abs
    ensures CarriesSlice(p, written, ended) <==> CarriesSlice(q, written, ended)
  {
  }

  /** What a tick does: time passes, and at most the oldest outstanding segment goes out again. */
  ghost predicate Ticked(s: Sender, t: Sender) {
    && Inv(t) && Advances(s, t)
    && t.stream == s.stream && t.nextSeq == s.nextSeq && t.lastAck == s.lastAck && t.sent == s.sent
    && t.outstanding == s.outstanding && t.inFlight == s.inFlight && t.window == s.window
    && s.out <= t.out
    && (t.out == s.out || (s.outstanding != [] && t.out == s.out + [Packet(s.outstanding[0], s.Front(), 0)]))
  }

  lemma TickInv(s: Sender, ms: nat)
    requires Inv(s)
    ensures Elapse(s, ms).timer.Expired() ==> s.outstanding != []
    ensures Ticked(s, Tick(s, ms))
  {
    hide Entry, Pow2, CarriesSlice;
    ElapseTimer(s, ms);
    var s1 := Elapse(s, ms);
    if s1.timer.Expired() {
      RetransmitTimer(s1);
      FrontGenuine(s);
    }
    hide TimerValid, Genuine;
    var t := Tick(s, ms);
    SameLog(s, t);
    hide LogValid;
    assert t.Front() == s.Front();
    forall p | p in t.out
      ensures Queued(p, t)
    {
      assert p in s.out || p == Packet(s.outstanding[0], s.Front(), 0);
      GenuineStays(p, s, t);
    }
  }

  // ---- the other calls ----

  lemma SendEmptyInv(s: Sender)
    requires Inv(s)
    ensures var t := SendEmpty(s);
            Inv(t) && Advances(s, t) && t == s.(out := t.out) && t.out != []
  {
    hide Entry, CarriesSlice, Wrap;
    var t := SendEmpty(s);
    SameLog(s, t);
    hide LogValid;
    assert t.Front() == s.Front();
    forall p | p in t.out
      ensures Queued(p, t)
    {
      if p in s.out {
        GenuineStays(p, s, t);
      }
    }
  }

  /** The owner does not write to a stream it has ended. */
  lemma WriteInv(s: Sender, data: seq<Byte>)
    requires Inv(s) && !s.stream.ended
    ensures var t := s.(stream := s.stream.Write(data));
            Inv(t) && Advances(s, t)
  {
    hide Pow2, Wrap;
    var t := s.(stream := s.stream.Write(data));
    forall k | 0 <= k < |s.sent|
      ensures Entry(t.sent, k, t.isn, t.stream.written, t.stream.ended)
    {
      assert Entry(s.sent, k, s.isn, s.stream.written, s.stream.ended);
      if k > 0 {
        var p := s.sent[k];
        SlicePrefix(s.stream.written, t.stream.written, p.abs - 1, p.abs - 1 + |p.seg.payload|);
      }
    }
    hide Entry, CarriesSlice;
    forall p | p in t.out
      ensures Queued(p, t)
    {
      GenuineStays(p, s, t);
    }
  }

  lemma EndInputInv(s: Sender)
    requires Inv(s)
    ensures var t := s.(stream := s.stream.EndInput());
            Inv(t) && Advances(s, t)
  {
    hide Pow2, Wrap;
    var t := s.(stream := s.stream.EndInput());
    forall k | 0 <= k < |s.sent|
      ensures Entry(t.sent, k, t.isn, t.stream.written, t.stream.ended)
    {
      assert Entry(s.sent, k, s.isn, s.stream.written, s.stream.ended);
    }
    hide Entry, CarriesSlice;
    forall p | p in t.out
      ensures Queued(p, t)
    {
      GenuineStays(p, s, t);
    }
  }

  /** Taking segments off the outbound queue, or an error on the stream, disturbs nothing. */
  lemma DrainInv(s: Sender, out: seq<Packet>, error: bool)
    requires Inv(s) && (forall p :: p in out ==> p in s.out) && (s.stream.error ==> error)
    ensures var t := s.(out := out, stream := s.stream.(error := error));
            Inv(t) && Advances(s, t)
  {
    hide Entry, CarriesSlice, Pow2;
    var t := s.(out := out, stream := s.stream.(error := error));
    SameLog(s, t);
    hide LogValid;
    assert t.Front() == s.Front();
    forall p | p in t.out
      ensures Queued(p, t)
    {
      GenuineStays(p, s, t);
    }
  }
}
