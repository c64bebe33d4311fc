/** Closing a connection: the four segments, and how long each side stays afterwards. */
module Closings {
  import opened Bytes
  import opened WrappingIntegers
  import opened Segments
  import opened Reassembly
  import opened Receiving
  import opened Sending
  import opened SenderInvariants
  import opened Connecting
  import opened ConnectionInvariants
  import opened Links
  import opened Transmission
  import opened Handshakes
  import opened Duplex
  import opened Network

  /** Everything written has been sent and acknowledged, and the stream has not ended. */
  predicate SaidAll(s: Sender) {
    s.State().SynAcked? && s.outstanding == [] && s.stream.Size() == 0 && !s.stream.ended && s.out == []
  }

  /** Only the FIN, with number `n`, is outstanding. */
  predicate FinOut(s: Sender, n: nat) {
    && s.State().FinSent? && s.nextSeq == n + 1 && s.lastAck == n && s.inFlight == 1 && s.out == []
    && s.outstanding == [DataSegment(Wrap(n, s.isn), [], true)]
  }

  /** The FIN has been acknowledged and the timer is at rest. */
  predicate FinDone(s: Sender) {
    s.State().FinAcked? && s.outstanding == [] && s.lastAck == s.nextSeq && s.out == [] && !s.timer.started
  }

  /** The receiver has everything below `n` of the peer that started at `isn`, and no end. */
  predicate UpTo(r: Receiver, isn: U32, n: nat) {
    r.State().SynRecv? && r.isn == Some(isn) && r.reasm.Next() + 1 == n && r.reasm.eof.None?
  }

  /** The same receiver once the end, with number `n`, has come. */
  predicate Through(r: Receiver, isn: U32, n: nat) {
    r.State().FinRecv? && r.isn == Some(isn) && r.reasm.Next() + 1 == n && r.reasm.eof == Some(r.reasm.Next())
  }

  // ---- the FIN goes out ----

  /** Filling the window of an ended stream with nothing left in it. */
  lemma FillsFin(s: Sender)
    requires s.stream.WellFormed() && s.stream.Size() == 0 && s.stream.ended && !s.stream.error
    requires s.nextSeq == s.lastAck == |s.stream.written| + 1 && s.inFlight == 0
    ensures FillWindow(s) == SendSegment(s, DataSegment(Wrap(s.nextSeq, s.isn), [], true))
  {
    hide Wrap;
    assert s.stream.Pop(0) == s.stream && s.stream.Peek(0) == [];
    assert CanSend(s) && SendSize(s) == 0 && CarriesFin(s);
    var t := FillStep(s);
    assert t.State().FinSent? && !CanSend(t);
    assert FillWindow(s) == FillLoop(t) == t;
  }

  lemma FinGoesOut(s: Sender)
    requires Inv(s) && SaidAll(s)
    ensures var n, t := s.nextSeq, FillWindow(s.(stream := s.stream.EndInput()));
            && t.out == [Packet(DataSegment(Wrap(n, s.isn), [], true), n, 0)]
            && FinOut(t.(out := []), n) && Inv(t.(out := [])) && t.isn == s.isn && Advances(s, t)
  {
    hide LogValid, QueueValid, TimerValid, Genuine, Wrap, FillWindow;
    var s1 := s.(stream := s.stream.EndInput());
    SaidAllMeans(s);
    EndInputInv(s);
    FillsFin(s1);
    FillWindowInv(s1);
    DrainedInv(FillWindow(s1));
  }

  lemma SaidAllMeans(s: Sender)
    requires Inv(s) && SaidAll(s)
    ensures s.nextSeq == s.lastAck == |s.stream.written| + 1 && s.inFlight == 0 && s.stream.WellFormed()
  {
    hide TimerValid, Genuine, Wrap;
    assert s.sent != [] ==> Entry(s.sent, |s.sent| - 1, s.isn, s.stream.written, s.stream.ended);
  }

  /** `end_input_stream` with nothing left to say sends the FIN. */
  lemma EndSends(c: Connection)
    requires c.WellFormed() && c.Sound() && SaidAll(c.sender)
    ensures var n, d := c.sender.nextSeq, EndInputStream(c);
            && d == c.(sender := d.sender, out := d.out) && d.WellFormed() && d.Sound()
            && FinOut(d.sender, n) && d.sender.isn == c.sender.isn
            && d.out == c.out + [Stamp(c.receiver, Packet(DataSegment(Wrap(n, c.sender.isn), [], true), n, 0))]
  {
    hide LogValid, TimerValid, Genuine, Stamp, FillWindow, Wrap;
    FinGoesOut(c.sender);
    var n, s := c.sender.nextSeq, c.sender.(stream := c.sender.stream.EndInput());
    OneStamped(c.(sender := FillWindow(s)), Packet(DataSegment(Wrap(n, c.sender.isn), [], true), n, 0));
    hide Enqueue;
  }

  // ---- the FIN comes in ----

  lemma FinComes(r: Receiver, seg: TcpSegment, n: nat)
    requires r.WellFormed() && r.isn.Some? && UpTo(r, r.isn.value, n)
    requires seg.payload == [] && seg.header.fin && !seg.header.syn && seg.header.seqno == Wrap(n, r.isn.value)
    ensures Receivable(r, seg) && Through(SegmentReceived(r, seg), r.isn.value, n)
    ensures SegmentReceived(r, seg).WellFormed() && SegmentReceived(r, seg).Window() == r.Window()
  {
    assert Advance(seg.header.seqno, 0) == seg.header.seqno;
    UnwrapRecovers(n, r.isn.value, n);
    hide Unwrap, Wrap, Advance, Feed;
    assert DataStart(r, seg) == n;
    assert Kept(r.reasm.out, [], n - 1) == [];
  }

  /** Taking in an acknowledgement of what was already acknowledged. */
  lemma NothingAcked(s: Sender, win: U16)
    requires s.lastAck <= s.nextSeq
    ensures AckReceived(s, Wrap(s.lastAck, s.isn), win) == s.(window := win)
  {
    UnwrapRecovers(s.lastAck, s.isn, s.lastAck);
    hide Unwrap, Wrap, PopAcked;
  }

  lemma NothingMoreToFill(s: Sender)
    requires s.stream.WellFormed() && s.lastAck <= s.nextSeq && !s.stream.error && (FinDone(s) || SaidAll(s))
    ensures FillWindow(s) == s
  {
  }

  /** A bare FIN that acknowledges nothing new, at number `n`. */
  ghost predicate ClosesAt(seg: TcpSegment, c: Connection, n: nat) {
    && seg.payload == [] && seg.header.fin && !seg.header.syn && !seg.header.rst && seg.header.ack
    && c.receiver.isn.Some? && UpTo(c.receiver, c.receiver.isn.value, n)
    && seg.header.seqno == Wrap(n, c.receiver.isn.value)
    && seg.header.ackno == Wrap(c.sender.lastAck, c.sender.isn)
  }

  /** The side that has not said its own FIN gives up lingering. */
  lemma FinTakenIn(c: Connection, seg: TcpSegment, n: nat)
    requires c.WellFormed() && c.Sound() && (FinDone(c.sender) || SaidAll(c.sender)) && c.linger && ClosesAt(seg, c, n)
    ensures Receivable(c.receiver, seg) && Through(SegmentReceived(c.receiver, seg), c.receiver.isn.value, n)
    ensures TakeIn(c, seg) == c.(receiver := SegmentReceived(c.receiver, seg),
                                 sender := c.sender.(window := seg.header.win), linger := FinDone(c.sender))
  {
    hide Inv, AckReceived, SegmentReceived, Wrap, Receivable;
    FinComes(c.receiver, seg, n);
    RestAcked(c.sender);
    NothingAcked(c.sender, seg.header.win);
  }

  lemma RestAcked(s: Sender)
    requires Inv(s) && (FinDone(s) || SaidAll(s))
    ensures s.lastAck == s.nextSeq
  {
  }

  /** A FIN is answered with an acknowledgement. */
  lemma FinAnswered(c: Connection, seg: TcpSegment, n: nat)
    requires c.WellFormed() && c.Sound() && (FinDone(c.sender) || SaidAll(c.sender)) && 0 < c.rtTimeout
    requires c.linger && ClosesAt(seg, c, n)
    ensures Acceptable(c, seg)
    ensures var d, m := Receive(c, seg), c.sender.nextSeq;
            && d.sender == c.sender.(window := seg.header.win) && d.WellFormed() && d.Sound()
            && Through(d.receiver, c.receiver.isn.value, n) && d.active == c.active && d.linger == FinDone(c.sender)
            && d.rtTimeout == c.rtTimeout && d.sinceRecv == 0
            && d.out == c.out + [Stamp(d.receiver, Packet(DataSegment(Wrap(m, c.sender.isn), [], false), m, 0))]
  {
    hide LogValid, QueueValid, TimerValid, Genuine, FillWindow, StampAll, Wrap, SegmentReceived, Handle, TakeIn, Stamp;
    hide Receivable;
    var c1 := c.(sinceRecv := 0);
    FinTakenIn(c1, seg, n);
    TakeInReady(c1, seg);
    RestAcked(c.sender);
    var s := c.sender.(window := seg.header.win);
    NothingMoreToFill(s);
    var p := Packet(DataSegment(Wrap(s.nextSeq, s.isn), [], false), s.nextSeq, 0);
    HandledWith(c1, seg, TakeIn(c1, seg), s.(out := [p]), p);
  }

  // ---- the acknowledgement of the FIN comes in ----

  lemma FinAcknowledged(s: Sender, n: nat, win: U16)
    requires Inv(s) && FinOut(s, n)
    ensures var t := AckReceived(s, Wrap(n + 1, s.isn), win);
            Inv(t) && FinDone(t) && t.isn == s.isn && t.nextSeq == s.nextSeq && t.stream == s.stream
  {
    UnwrapRecovers(n + 1, s.isn, n);
    UnwrapRecovers(n, s.isn, n);
    AckReceivedInv(s, Wrap(n + 1, s.isn), win);
    hide Unwrap, Wrap, LogValid, QueueValid, TimerValid, Genuine;
    var s1 := s.(timer := s.timer.ResetTo(s.initRto), retx := 0, quiet := 0);
    assert s.outstanding[0].Length() == 1;
    assert PopAcked(s1, n + 1) == s1.(inFlight := 0, outstanding := []);
  }

  /** A plain segment at the number expected changes nothing and is no keep-alive probe. */
  lemma NothingComes(r: Receiver, seg: TcpSegment, n: nat)
    requires r.WellFormed() && r.isn.Some? && Plain(seg) && !seg.header.syn
    requires (UpTo(r, r.isn.value, n) && seg.header.seqno == Wrap(n, r.isn.value)) ||
             (Through(r, r.isn.value, n) && seg.header.seqno == Wrap(n + 1, r.isn.value))
    ensures Receivable(r, seg) && SegmentReceived(r, seg) == r && !ReplyDue(r, seg)
  {
    var isn, m := r.isn.value, r.AbsAck();
    assert seg.header.seqno == Wrap(m, isn);
    assert Advance(seg.header.seqno, 0) == seg.header.seqno && Retreat(Wrap(m, isn), 1) != Wrap(m, isn);
    UnwrapRecovers(m, isn, m);
    hide Unwrap, Wrap, Advance, Retreat, Push;
    PushNothing(r.reasm, m - 1);
  }

  /** The side whose FIN is acknowledged needs no answer, and stops at once unless it lingers. */
  lemma FinAckTaken(c: Connection, seg: TcpSegment, n: nat, m: nat)
    requires c.WellFormed() && c.Sound() && FinOut(c.sender, n) && c.receiver.isn.Some?
    requires Plain(seg) && !seg.header.syn && seg.header.ack && seg.header.ackno == Wrap(n + 1, c.sender.isn)
    requires (UpTo(c.receiver, c.receiver.isn.value, m) && seg.header.seqno == Wrap(m, c.receiver.isn.value)
              && c.linger) ||
             (Through(c.receiver, c.receiver.isn.value, m) && seg.header.seqno == Wrap(m + 1, c.receiver.isn.value)
              && !c.linger)
    ensures Acceptable(c, seg)
    ensures var d := Receive(c, seg);
            && FinDone(d.sender) && d.sender.isn == c.sender.isn && d.sender.nextSeq == c.sender.nextSeq
            && d.WellFormed() && d.Sound() && d.sender.stream == c.sender.stream
            && d.receiver == c.receiver && d.linger == c.linger && d.active == (c.active && c.linger)
            && d.rtTimeout == c.rtTimeout && d.sinceRecv == 0 && d.out == c.out
  {
    NothingComes(c.receiver, seg, m);
    FinAcknowledged(c.sender, n, seg.header.win);
    hide LogValid, TimerValid, Genuine, FillWindow, Wrap, SegmentReceived, AckReceived, Receivable, ReplyDue;
    var c1 := c.(sinceRecv := 0);
    var s := AckReceived(c.sender, seg.header.ackno, seg.header.win);
    NothingMoreToFill(s);
    var t := c1.(sender := s);
    assert TakeIn(c1, seg) == t;
    assert Reply(t, seg) == t;
  }

  // ---- the whole exchange ----

  /** A side that is up and has said all it has to say so far, with the peer at number `n` all taken in. */
  ghost predicate AtRest(c: Connection, isn: U32, n: nat) {
    && c.WellFormed() && c.Sound() && c.active && c.linger && c.out == [] && 0 < c.rtTimeout
    && SaidAll(c.sender) && UpTo(c.receiver, isn, n)
  }

  /** So it is whenever two linked sides are up and both have said all they have to say. */
  lemma SaidAllAtRest(w: World)
    requires Good(w) && w.a.active && w.b.active && w.a.out == [] == w.b.out && 0 < w.a.rtTimeout && 0 < w.b.rtTimeout
    requires SaidAll(w.a.sender) && SaidAll(w.b.sender)
    ensures AtRest(w.a, w.b.sender.isn, w.b.sender.nextSeq) && AtRest(w.b, w.a.sender.isn, w.a.sender.nextSeq)
  {
    hide Inv, Faithful, InStep, FlowValid, AcksValid, UpTo;
    SaidAllReceived(w.a.sender, w.b.receiver, Elements(w.a.out) + w.ab, Elements(w.b.out) + w.ba);
    SaidAllReceived(w.b.sender, w.a.receiver, Elements(w.b.out) + w.ba, Elements(w.a.out) + w.ab);
  }

  lemma SaidAllReceived(s: Sender, r: Receiver, fwd: set<Packet>, back: set<Packet>)
    requires Link(s, r, fwd, back) && SaidAll(s) && !r.reasm.out.error
    ensures UpTo(r, s.isn, s.nextSeq) && !r.reasm.out.ended
  {
    hide LogValid, QueueValid, TimerValid, Genuine, FlowValid, AcksValid;
    SaidAllMeans(s);
    LinkMeans(s, r, fwd, back);
  }

  /** `x` has one segment to send, and `y` can take it. */
  ghost predicate Passes(x: Connection, y: Connection) {
    |x.out| == 1 && y.WellFormed() && y.Sound() && Acceptable(y, x.out[0].seg)
  }

  ghost function Passed(x: Connection, y: Connection): Connection
    requires Passes(x, y)
  {
    Receive(y, x.out[0].seg)
  }

  function Emptied(c: Connection): Connection {
    c.(out := [])
  }

  /** Everything is received, whatever is still to be acknowledged, and only the time since the last segment keeps the
      side up. */
  ghost predicate Lingering(c: Connection) {
    && c.WellFormed() && c.Sound() && c.linger && c.receiver.reasm.out.ended && c.sender.out == []
    && (c.active <==> c.sinceRecv < 10 * c.rtTimeout)
  }

  /** FIN, acknowledgement, FIN, acknowledgement: the side that ended second is done at once, the other lingers. */
  lemma ClosingCompletes(a: Connection, b: Connection)
    requires AtRest(a, b.sender.isn, b.sender.nextSeq) && AtRest(b, a.sender.isn, a.sender.nextSeq)
    ensures var a1 := EndInputStream(a);
            && Passes(a1, b)
            && var b1 := Passed(a1, b);
               && b1.active && Passes(b1, Emptied(a1))
               && var a2 := Passed(b1, Emptied(a1));
                  && a2.active && a2.out == [] && Emptied(b1).WellFormed()
                  && var b2 := EndInputStream(Emptied(b1));
                     && b2.active && Passes(b2, a2)
                     && var a3 := Passed(b2, a2);
                        && a3.active && a3.sinceRecv == 0 && Lingering(a3) && FinDone(a3.sender)
                        && Passes(a3, Emptied(b2))
                        && var b3 := Passed(a3, Emptied(b2));
                           && !b3.active && b3.Sound() && b3.out == [] && FinDone(b3.sender)
                           && b3.receiver.State().FinRecv?
  {
    hide LogValid, TimerValid, Genuine, Receive, EndInputStream, Wrap, Acceptable;
    var n, m := a.sender.nextSeq, b.sender.nextSeq;
    RestAcked(a.sender);
    RestAcked(b.sender);
    EndSends(a);
    var a1 := EndInputStream(a);
    FinAnswered(b, a1.out[0].seg, n);
    var b1 := Passed(a1, b);
    FinAckTaken(Emptied(a1), b1.out[0].seg, n, m);
    var a2 := Passed(b1, Emptied(a1));
    EndSends(Emptied(b1));
    var b2 := EndInputStream(Emptied(b1));
    FinAnswered(a2, b2.out[0].seg, m);
    var a3 := Passed(b2, a2);
    FinAckTaken(Emptied(b2), a3.out[0].seg, m, n);
  }

  // ---- lingering ----

  /** Time passing in the given steps, unless the side gives up. */
  ghost function TickAll(c: Connection, mss: seq<nat>): Connection
    requires Lingering(c)
    decreases |mss|
  {
    if mss == [] then c
    else
      LingerTick(c, mss[0]);
      var d := TickBy(c, mss[0]);
      if d.Sound() then TickAll(d, mss[1..]) else d
  }

  lemma LingerTick(c: Connection, ms: nat)
    requires Lingering(c)
    ensures var d := TickBy(c, ms);
            && (c.sender.outstanding == [] ==> d.Sound() && d.sender == c.sender && d.out == c.out)
            && (d.Sound() ==> Lingering(d) && d.sinceRecv == c.sinceRecv + ms && d.rtTimeout == c.rtTimeout)
  {
    hide LogValid, QueueValid, Genuine, Enqueue, Stamp;
    assert c.sender.outstanding == [] ==> Tick(c.sender, ms) == c.sender;
    TickInv(c.sender, ms);
    var u := c.(sinceRecv := c.sinceRecv + ms, sender := Tick(c.sender, ms));
    hide TimerValid, Tick;
    if u.sender.retx <= MAX_RETX_ATTEMPTS {
      SendOn(TryCleanShutdown(u), u.sender);
    } else {
      EnqueueKeepsSent(GiveUp(u));
    }
  }

  /** A side that lingers is up exactly until ten timeouts have passed since the last segment, in whatever steps and
      whether or not its own FIN was acknowledged, unless it gives up before; one that has everything acknowledged
      neither gives up nor says anything more. */
  lemma {:induction false} LingersTenTimeouts(c: Connection, mss: seq<nat>)
    requires Lingering(c)
    ensures var d := TickAll(c, mss);
            && (d.Sound() ==> (d.active <==> c.sinceRecv + Sum(mss) < 10 * c.rtTimeout))
            && (c.sender.outstanding == [] ==> d.Sound() && d.out == c.out && d.sender == c.sender)
    decreases |mss|
  {
    hide Lingering, TickBy;
    LingeringActive(c);
    if mss != [] {
      LingerTick(c, mss[0]);
      var d := TickBy(c, mss[0]);
      if d.Sound() {
        LingersTenTimeouts(d, mss[1..]);
      }
    }
  }

  lemma LingeringActive(c: Connection)
    requires Lingering(c)
    ensures c.WellFormed() && c.Sound() && (c.active <==> c.sinceRecv < 10 * c.rtTimeout)
  {
  }
}
