/** Opening a connection: the three segments, from either side. */
module Handshakes {
  import opened Bytes
  import opened WrappingIntegers
  import opened Segments
  import opened Reassembly
  import opened Receiving
  import opened Sending
  import opened SenderInvariants
  import opened Connecting
  import opened ConnectionInvariants
  import opened Links
  import opened Transmission

  /** A receiver that has seen nothing yet. */
  predicate Unopened(r: Receiver) {
    r.State().Listen? && r.reasm.eof.None? && r.reasm.Next() == 0
  }

  /** The owner has neither written nor ended anything yet. */
  predicate Silent(c: Connection) {
    c.sender.out == [] && c.sender.stream.Size() == 0 && !c.sender.stream.ended
  }

  /** A sender with only its SYN outstanding and nothing to say yet. */
  predicate Opening(s: Sender) {
    && s.nextSeq == 1 == s.inFlight && s.lastAck == 0 && s.outstanding == [SynSegment(s.isn)]
    && s.stream.WellFormed() && s.stream.Size() == 0 && !s.stream.ended && !s.stream.error && s.out == []
  }

  /** The SYN has been acknowledged and there is still nothing to say. */
  predicate Open(s: Sender) {
    s.State().SynAcked? && s.nextSeq == 1 == s.lastAck && s.outstanding == [] && s.inFlight == 0
  }

  /** Neither data nor end: only the handshake's own flags. */
  predicate Plain(seg: TcpSegment) {
    seg.payload == [] && !seg.header.fin && !seg.header.rst
  }

  /** A SYN, and nothing else, opens a listening receiver. */
  lemma SynOpens(r: Receiver, seg: TcpSegment)
    requires r.WellFormed() && Unopened(r) && Plain(seg) && seg.header.syn
    ensures Receivable(r, seg)
    ensures var q := SegmentReceived(r, seg);
            && q == r.(listening := false, isn := Some(seg.header.seqno)) && q.State().SynRecv? && q.AbsAck() == 1
            && q.AckNo() == Some(Advance(seg.header.seqno, 1))
  {
    var r1 := Opened(r, seg);
    var n := seg.header.seqno;
    assert Wrap(1, n) == Advance(n, 1);
    UnwrapRecovers(1, n, 1);
    hide Unwrap, Wrap, Advance, Push;
    assert DataStart(r1, seg) == 1;
    PushNothing(r1.reasm, 0);
  }

  /** Acknowledging the SYN leaves nothing outstanding and the timer at rest. */
  lemma SynAcknowledged(s: Sender, win: U16)
    requires Opening(s)
    ensures var t := AckReceived(s, Wrap(1, s.isn), win);
            Open(t) && t.stream == s.stream && t.out == [] && t.isn == s.isn && !t.timer.started
  {
    UnwrapRecovers(1, s.isn, 0);
    UnwrapRecovers(0, s.isn, 0);
    assert Wrap(0, s.isn) == s.isn;
    hide Unwrap, Wrap;
    var s1 := s.(timer := s.timer.ResetTo(s.initRto), retx := 0, quiet := 0);
    assert SynSegment(s.isn).Length() == 1;
    assert PopAcked(s1, 1) == s1.(inFlight := 0, outstanding := []);
  }

  /** With nothing to say, filling the window says nothing. */
  lemma NothingToFill(s: Sender)
    requires s.stream.WellFormed() && s.lastAck <= s.nextSeq && 0 < s.nextSeq
    requires s.stream.Size() == 0 && !s.stream.ended && !s.stream.error
    ensures FillWindow(s) == s
  {
  }

  /** What a side replies: one segment, stamped with what it has received. */
  ghost predicate Answers(c: Connection, d: Connection, syn: bool, acked: U32) {
    && |d.out| == |c.out| + 1 && c.out <= d.out
    && var seg := d.out[|c.out|].seg;
       && Plain(seg) && seg.header.syn == syn && seg.header.ack && seg.header.ackno == acked
       && seg.header.seqno == Wrap(if syn then 0 else 1, c.sender.isn)
       && seg.header.win == Min(d.receiver.Window(), 65535)
  }

  /** Filling the window of a closed sender with nothing to say. */
  lemma SynGoesOut(s: Sender)
    requires Inv(s) && s.State().Closed? && s.out == [] && s.stream.Size() == 0 && !s.stream.ended
    ensures var t := FillWindow(s);
            && Opening(t.(out := [])) && Inv(t.(out := []))
            && t.out == [Packet(SynSegment(s.isn), 0, 0)] && t.isn == s.isn && t.State().SynSent?
  {
    hide LogValid, QueueValid, TimerValid, Genuine;
    ClosedSender(s);
    FillWindowInv(s);
    DrainedInv(FillWindow(s));
  }

  lemma ClosedSender(s: Sender)
    requires Inv(s) && s.State().Closed?
    ensures s.stream.WellFormed()
    ensures s.sent == [] && s.outstanding == [] && s.nextSeq == 0 == s.lastAck && s.inFlight == 0
  {
    hide TimerValid, Genuine, Wrap;
    LogStart(s);
  }

  /** `connect`: the SYN goes out, with no acknowledgement to carry. */
  lemma ConnectSends(c: Connection)
    requires c.WellFormed() && c.Sound() && c.Listening() && Silent(c) && Unopened(c.receiver)
    ensures var d := FillAndQueue(c);
            && d.WellFormed() && Opening(d.sender) && d.sender.isn == c.sender.isn
            && d == c.(sender := d.sender, out := d.out)
            && d.out == c.out + [Packet(SynSegment(c.sender.isn), 0, 0)]
  {
    hide LogValid, TimerValid, Genuine, FillWindow, StampAll, Wrap;
    SynGoesOut(c.sender);
    OneStamped(c.(sender := FillWindow(c.sender)), Packet(SynSegment(c.sender.isn), 0, 0));
    hide Enqueue;
  }

  lemma WrapZero(isn: U32)
    ensures Wrap(0, isn) == isn && Wrap(1, isn) == Advance(isn, 1)
  {
  }

  /** What is left of receiving a segment once both halves have taken it in and the reply is known. */
  lemma HandledWith(c: Connection, seg: TcpSegment, t: Connection, s: Sender, p: Packet)
    requires c.WellFormed() && c.Sound() && Receivable(c.receiver, seg) && TakeIn(c, seg) == t
    requires t.sender.stream.WellFormed() && t.sender.lastAck <= t.sender.nextSeq
    requires t.receiver.reasm.out.WellFormed() && (t.receiver.listening || t.receiver.isn.Some?)
    requires Reply(t, seg) == t.(sender := s) && s.out == [p] && !t.needRst
    requires !CleanStop(t.(sender := s))
    ensures Handle(c, seg) == t.(sender := s.(out := []), out := t.out + [Stamp(t.receiver, p)])
  {
    hide Inv, TakeIn, Reply, Stamp, StampAll, Enqueue;
    OneStamped(t.(sender := s), p);
  }

  /** A listening side answers a SYN with its own, acknowledging it. */
  lemma ListenerAnswers(c: Connection, seg: TcpSegment)
    requires c.WellFormed() && c.Sound() && c.Listening() && Silent(c) && Unopened(c.receiver)
    requires Plain(seg) && seg.header.syn && !seg.header.ack
    ensures Acceptable(c, seg)
    ensures var d := Receive(c, seg);
            && d.WellFormed() && d.Sound() && Opening(d.sender) && d.sender.isn == c.sender.isn && d.active == c.active
            && d.receiver == c.receiver.(listening := false, isn := Some(seg.header.seqno))
            && Answers(c, d, true, Advance(seg.header.seqno, 1))
  {
    hide LogValid, QueueValid, TimerValid, Genuine, FillWindow, StampAll, Wrap, Advance, SegmentReceived, Handle;
    SynOpens(c.receiver, seg);
    SynGoesOut(c.sender);
    ClosedSender(c.sender);
    WrapZero(c.sender.isn);
    var c1 := c.(sinceRecv := 0);
    var t := c1.(receiver := SegmentReceived(c.receiver, seg));
    assert TakeIn(c1, seg) == t;
    var s := FillWindow(c.sender);
    HandledWith(c1, seg, t, s, Packet(SynSegment(c.sender.isn), 0, 0));
  }

  /** The side that sent its SYN first takes the answer and acknowledges it. */
  lemma OpenerAnswers(c: Connection, seg: TcpSegment)
    requires c.WellFormed() && c.Sound() && Opening(c.sender) && Unopened(c.receiver)
    requires Plain(seg) && seg.header.syn && seg.header.ack && seg.header.ackno == Wrap(1, c.sender.isn)
    ensures Acceptable(c, seg)
    ensures var d := Receive(c, seg);
            && Open(d.sender) && d.sender.isn == c.sender.isn && d.active == c.active && d.Sound()
            && d.receiver == c.receiver.(listening := false, isn := Some(seg.header.seqno))
            && Answers(c, d, false, Advance(seg.header.seqno, 1))
  {
    hide LogValid, QueueValid, TimerValid, Genuine, FillWindow, StampAll;
    hide Wrap, Advance, SegmentReceived, Handle, AckReceived;
    SynOpens(c.receiver, seg);
    SynAcknowledged(c.sender, seg.header.win);
    var c1 := c.(sinceRecv := 0);
    var s := AckReceived(c.sender, seg.header.ackno, seg.header.win);
    NothingToFill(s);
    var t := c1.(receiver := SegmentReceived(c.receiver, seg), sender := s);
    assert TakeIn(c1, seg) == t;
    var p := Packet(DataSegment(Wrap(1, c.sender.isn), [], false), 1, 0);
    HandledWith(c1, seg, t, s.(out := [p]), p);
  }

  /** The last acknowledgement opens the other side, which has nothing to answer. */
  lemma ListenerOpens(c: Connection, seg: TcpSegment)
    requires c.WellFormed() && c.Sound() && Opening(c.sender)
    requires c.receiver.State().SynRecv? && c.receiver.reasm.eof.None? && c.receiver.reasm.Next() == 0
    requires Plain(seg) && !seg.header.syn && seg.header.ack && seg.header.ackno == Wrap(1, c.sender.isn)
    requires c.receiver.isn.Some? && seg.header.seqno == Wrap(1, c.receiver.isn.value)
    ensures Acceptable(c, seg)
    ensures var d := Receive(c, seg);
            && Open(d.sender) && d.receiver == c.receiver && d.active == c.active && d.Sound() && d.out == c.out
  {
    hide LogValid, QueueValid, TimerValid, Genuine, FillWindow, StampAll;
    hide Wrap, Advance, Retreat, SegmentReceived, AckReceived;
    NothingNew(c.receiver, seg);
    SynAcknowledged(c.sender, seg.header.win);
    var c1 := c.(sinceRecv := 0);
    var s := AckReceived(c.sender, seg.header.ackno, seg.header.win);
    NothingToFill(s);
    var t := c1.(sender := s);
    assert TakeIn(c1, seg) == t;
    assert Reply(t, seg) == t;
  }

  /** A plain segment at the expected number changes nothing and is no keep-alive probe. */
  lemma NothingNew(r: Receiver, seg: TcpSegment)
    requires r.WellFormed() && r.State().SynRecv? && r.reasm.eof.None? && r.reasm.Next() == 0
    requires Plain(seg) && !seg.header.syn && r.isn.Some? && seg.header.seqno == Wrap(1, r.isn.value)
    ensures Receivable(r, seg) && SegmentReceived(r, seg) == r && !ReplyDue(r, seg)
  {
    var n := r.isn.value;
    WrapZero(n);
    AdvanceRetreat(n, 1);
    assert Advance(seg.header.seqno, 0) == seg.header.seqno && Advance(n, 1) != n;
    UnwrapRecovers(1, n, 1);
    hide Unwrap, Wrap, Advance, Retreat, Push;
    PushNothing(r.reasm, 0);
  }

  /** Two fresh sides, three segments: afterwards both are open and each has the other's initial number. */
  lemma HandshakeCompletes(a: Connection, b: Connection)
    requires a.WellFormed() && a.Sound() && a.Listening() && Silent(a) && Unopened(a.receiver) && a.out == []
    requires b.WellFormed() && b.Sound() && b.Listening() && Silent(b) && Unopened(b.receiver) && b.out == []
    ensures var a1 := FillAndQueue(a);
            && |a1.out| == 1 && Acceptable(b, a1.out[0].seg)
            && var b1 := Receive(b, a1.out[0].seg);
               && |b1.out| == 1 && a1.(out := []).WellFormed() && a1.Sound()
               && Acceptable(a1.(out := []), b1.out[0].seg)
               && var a2 := Receive(a1.(out := []), b1.out[0].seg);
                  && |a2.out| == 1 && b1.(out := []).WellFormed() && b1.Sound()
                  && Acceptable(b1.(out := []), a2.out[0].seg)
                  && var b2 := Receive(b1.(out := []), a2.out[0].seg);
                     && b2.out == []
                     && Open(a2.sender) && a2.receiver.State().SynRecv? && a2.receiver.isn == Some(b.sender.isn)
                     && Open(b2.sender) && b2.receiver.State().SynRecv? && b2.receiver.isn == Some(a.sender.isn)
  {
    hide LogValid, TimerValid, Genuine, FillAndQueue, Receive, Wrap, Advance;
    WrapZero(a.sender.isn);
    WrapZero(b.sender.isn);
    ConnectSends(a);
    var a1 := FillAndQueue(a);
    ListenerAnswers(b, a1.out[0].seg);
    var b1 := Receive(b, a1.out[0].seg);
    OpenerAnswers(a1.(out := []), b1.out[0].seg);
    var a2 := Receive(a1.(out := []), b1.out[0].seg);
    ListenerOpens(b1.(out := []), a2.out[0].seg);
  }
}
