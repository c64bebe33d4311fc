/** What every call of a connection keeps, and what each of its endings means. */
module ConnectionInvariants {
  import opened Bytes
  import opened WrappingIntegers
  import opened Segments
  import opened Reassembly
  import opened Receiving
  import opened Sending
  import opened SenderInvariants
  import opened Connecting

  datatype ConnOp =
    | Segment(seg: TcpSegment) | Connect | WriteOp(data: seq<Byte>) | EndOp | TickOp(ms: nat) | ReadOp(len: nat) | Flush

  /** A connection not reset has sent on all it queued and stops only cleanly, an active one has not run out of
      attempts, and only one whose peer has finished does not linger. */
  ghost predicate ConnInv(c: Connection) {
    && c.WellFormed()
    && c.sender.initRto == c.rtTimeout
    && (c.active ==> c.Sound() && c.sender.retx <= MAX_RETX_ATTEMPTS)
    && (c.Sound() ==> c.sender.out == [])
    && (c.Sound() && !c.active ==> CleanStop(c))
    && (!c.linger ==> c.receiver.reasm.out.ended || c.receiver.reasm.out.error)
  }

  /** The owner calls an active connection only and writes nothing after the end; the peer may send anything that does
      not trip the reassembler's assertion. */
  ghost predicate Permitted(c: Connection, op: ConnOp) {
    match op
    case Segment(seg) => c.active && Acceptable(c, seg)
    case WriteOp(data) => c.active && !c.sender.stream.ended
    case ReadOp(len) => true
    case Flush => true
    case _ => c.active
  }

  ghost function Step(c: Connection, op: ConnOp): Connection
    requires ConnInv(c) && Permitted(c, op)
  {
    match op
    case Segment(seg) => Receive(c, seg)
    case Connect => FillAndQueue(c)
    case WriteOp(data) => WriteData(c, data)
    case EndOp => EndInputStream(c)
    case TickOp(ms) => TickBy(c, ms)
    case ReadOp(len) => c.(receiver := ReadBy(c.receiver, len))
    case Flush => c.(out := [])
  }

  /** The segment carries the receiver's present acknowledgement and window, if and only if there is one to carry. */
  predicate Current(p: Packet, r: Receiver)
    requires r.listening || r.isn.Some?
  {
    && (p.seg.header.ack <==> r.AckNo().Some?)
    && (r.AckNo().Some? ==>
          && p.seg.header.ackno == r.AckNo().value && p.absAck == r.AbsAck()
          && p.seg.header.win == Min(r.Window(), 65535))
  }

  /** Segments were only added to the outbound queue, all of them current and none a reset. */
  ghost predicate Emits(c: Connection, d: Connection) {
    && (d.receiver.listening || d.receiver.isn.Some?)
    && c.out <= d.out
    && forall i :: |c.out| <= i < |d.out| ==> Current(d.out[i], d.receiver) && !d.out[i].seg.header.rst
  }

  lemma EnqueueEmits(c: Connection)
    requires c.receiver.reasm.out.WellFormed() && (c.receiver.listening || c.receiver.isn.Some?) && !c.needRst
    requires forall p :: p in c.sender.out ==> !p.seg.header.rst && !p.seg.header.ack
    ensures var d := Enqueue(c);
            && Emits(c, d) && |d.out| == |c.out| + |c.sender.out|
            && d == c.(out := d.out, sender := c.sender.(out := []))
  {
    hide Stamp, Current;
    var d := Enqueue(c);
    forall i | |c.out| <= i < |d.out|
      ensures Current(d.out[i], d.receiver) && !d.out[i].seg.header.rst
    {
      var p := c.sender.out[i - |c.out|];
      assert d.out[i] == Stamp(c.receiver, p);
      StampCurrent(c.receiver, p);
    }
  }

  lemma StampCurrent(r: Receiver, p: Packet)
    requires r.reasm.out.WellFormed() && (r.listening || r.isn.Some?) && !p.seg.header.rst && !p.seg.header.ack
    ensures Current(Stamp(r, p), r) && !Stamp(r, p).seg.header.rst
  {
    hide Wrap;
  }

  lemma DrainedInv(s: Sender)
    requires Inv(s)
    ensures Inv(s.(out := [])) && Advances(s, s.(out := []))
  {
    hide LogValid, QueueValid, TimerValid, Genuine;
    DrainInv(s, [], s.stream.error);
  }

  /** A call that lets the sender move and then queues what it produced. */
  lemma SendOn(c: Connection, s: Sender)
    requires c.WellFormed() && c.Sound() && Inv(s) && Advances(c.sender, s) && !s.stream.error
    ensures var d := Enqueue(c.(sender := s));
            && d.WellFormed() && d.Sound() && Advances(c.sender, d.sender) && Emits(c, d)
            && d == c.(out := d.out, sender := s.(out := []))
            && |d.out| == |c.out| + |s.out|
  {
    hide LogValid, QueueValid, TimerValid, Genuine;
    EnqueueEmits(c.(sender := s));
    DrainedInv(s);
  }

  lemma FilledSender(s: Sender)
    requires Inv(s) && !s.stream.error
    ensures var t := FillWindow(s);
            && Inv(t) && Advances(s, t) && t.retx == s.retx && !t.stream.error && 0 < t.nextSeq
            && t.stream == s.stream.(read := t.stream.read)
  {
    hide LogValid, TimerValid, Genuine;
    FillWindowInv(s);
    FillKeepsStream(s);
  }

  lemma {:induction false} FillLoopStream(s: Sender)
    requires s.stream.WellFormed() && s.lastAck <= s.nextSeq
    ensures FillLoop(s).stream == s.stream.(read := FillLoop(s).stream.read) && FillLoop(s).retx == s.retx
    ensures FillLoop(s).quiet <= s.quiet
    ensures FillLoop(s).timer == (if s.timer.started || FillLoop(s).sent == s.sent then s.timer
                                  else TimerValue(s.timer.timeout, 0, true))
    ensures |s.sent| <= |FillLoop(s).sent|
    decreases s.FreeWindow()
  {
    hide CanSend, NextSegment, SendSize;
    if CanSend(s) {
      FillStepProgress(s);
      FillLoopStream(FillStep(s));
    }
  }

  lemma FillKeepsStream(s: Sender)
    requires s.stream.WellFormed() && s.lastAck <= s.nextSeq
    ensures FillWindow(s).stream == s.stream.(read := FillWindow(s).stream.read) && FillWindow(s).retx == s.retx
    ensures FillWindow(s).quiet <= s.quiet
    ensures FillWindow(s).timer == (if s.timer.started || FillWindow(s).sent == s.sent then s.timer
                                    else TimerValue(s.timer.timeout, 0, true))
  {
    hide FillLoop;
    FillLoopStream(s);
  }

  /** What a call does to a connection that is not reset by it. */
  ghost predicate Moves(c: Connection, d: Connection) {
    && ConnInv(d) && d.Sound()
    && Advances(c.sender, d.sender) && d.rtTimeout == c.rtTimeout
    && c.receiver.AbsAck() <= d.receiver.AbsAck()
    && (!c.receiver.listening ==> !d.receiver.listening && RightEdge(c.receiver) <= RightEdge(d.receiver))
    && (c.receiver.reasm.out.ended ==> d.receiver.reasm.out.ended)
    && (d.active ==> c.active)
    && (!c.linger ==> !d.linger)
  }

  lemma FillMoves(c: Connection, s: Sender)
    requires ConnInv(c) && c.active
    requires Inv(s) && Advances(c.sender, s) && !s.stream.error && s.retx == c.sender.retx
    ensures var d := FillAndQueue(c.(sender := s));
            Moves(c, d) && Emits(c, d)
  {
    hide LogValid, TimerValid, Genuine, Enqueue, FillWindow, Advances;
    FilledSender(s);
    AdvancesTrans(c.sender, s, FillWindow(s));
    SendOn(c, FillWindow(s));
  }

  lemma AdvancesTrans(s: Sender, t: Sender, u: Sender)
    requires Advances(s, t) && Advances(t, u)
    ensures Advances(s, u)
  {
  }

  lemma ConnectMoves(c: Connection)
    requires ConnInv(c) && c.active
    ensures Moves(c, FillAndQueue(c)) && Emits(c, FillAndQueue(c))
  {
    hide LogValid, TimerValid, Genuine, QueueValid, FillAndQueue;
    FillMoves(c, c.sender);
  }

  lemma WriteMoves(c: Connection, data: seq<Byte>)
    requires ConnInv(c) && c.active && !c.sender.stream.ended
    ensures Moves(c, WriteData(c, data)) && Emits(c, WriteData(c, data))
  {
    hide LogValid, TimerValid, Genuine, QueueValid, FillAndQueue;
    WriteInv(c.sender, data);
    FillMoves(c, c.sender.(stream := c.sender.stream.Write(data)));
  }

  lemma EndMoves(c: Connection)
    requires ConnInv(c) && c.active
    ensures Moves(c, EndInputStream(c)) && Emits(c, EndInputStream(c))
  {
    hide LogValid, TimerValid, Genuine, QueueValid, FillAndQueue;
    EndInputInv(c.sender);
    FillMoves(c, c.sender.(stream := c.sender.stream.EndInput()));
  }

  lemma ReadMoves(c: Connection, len: nat)
    requires ConnInv(c)
    ensures var d := c.(receiver := ReadBy(c.receiver, len));
            ConnInv(d) && (c.Sound() ==> Moves(c, d))
  {
    hide Inv;
    if !c.receiver.reasm.out.error {
      ReadAdvances(c.receiver, len);
    }
  }

  // ---- receiving ----

  /** Both halves after a segment came in. */
  ghost predicate TakenIn(c: Connection, t: Connection) {
    && t.WellFormed() && t.Sound() && Advances(c.sender, t.sender) && t.sender.out == c.sender.out
    && t.sender.retx <= c.sender.retx
    && t == c.(receiver := t.receiver, sender := t.sender, linger := t.linger)
    && c.receiver.AbsAck() <= t.receiver.AbsAck()
    && (!c.receiver.listening ==> !t.receiver.listening && RightEdge(c.receiver) <= RightEdge(t.receiver))
    && (c.receiver.reasm.out.ended ==> t.receiver.reasm.out.ended)
    && (t.linger ==> c.linger) && (!t.linger ==> !c.linger || t.receiver.reasm.out.ended)
  }

  lemma TakeInMoves(c: Connection, seg: TcpSegment)
    requires c.WellFormed() && c.Sound() && Receivable(c.receiver, seg)
    ensures TakenIn(c, TakeIn(c, seg))
  {
    hide Unwrap, LogValid, QueueValid, TimerValid, Genuine, SegmentReceived, AckReceived, Advances, Receivable;
    TakeInReady(c, seg);
    if seg.header.ack {
      AckReceivedInv(c.sender, seg.header.ackno, seg.header.win);
    }
    ReceiveAdvances(c.receiver, seg);
    ReceiveKeepsError(c.receiver, seg);
  }

  lemma ReceiveKeepsError(r: Receiver, seg: TcpSegment)
    requires r.WellFormed() && !r.reasm.out.error && Receivable(r, seg)
    ensures var q := SegmentReceived(r, seg);
            (r.reasm.out.ended ==> q.reasm.out.ended) && (!r.listening ==> !q.listening)
  {
    hide Unwrap, Push;
    var r1 := Opened(r, seg);
    if r1.isn.Some? && DataStart(r1, seg) > 0 {
      PushContinues(r1.reasm, seg.payload, DataStart(r1, seg) - 1, seg.header.fin);
    }
  }

  /** A probe of the number just before the one expected. */
  predicate KeepAlive(r: Receiver, seg: TcpSegment) {
    r.State().SynRecv? && r.isn.Some? && 0 < r.AbsAck() && seg.header.seqno == Wrap(r.AbsAck() - 1, r.isn.value)
  }

  lemma KeepAliveMeans(r: Receiver, seg: TcpSegment)
    requires r.listening || r.isn.Some?
    ensures ReplyDue(r, seg) <==> seg.Length() > 0 || KeepAlive(r, seg)
  {
    if r.State().SynRecv? {
      WrapShift(r.AbsAck() - 1, r.isn.value, 1);
      AdvanceRetreat(Wrap(r.AbsAck() - 1, r.isn.value), 1);
    }
    hide Wrap, Advance, Retreat;
  }

  /** What the sender has to say after a segment: what the window lets it send, or else, if the segment occupied numbers
      or was a probe, one empty segment with the next number, or else nothing. */
  lemma ReplyExact(t: Connection, seg: TcpSegment)
    requires t.WellFormed() && t.Sound()
    ensures var u, s := Reply(t, seg), FillWindow(t.sender);
            && u == t.(sender := s.(out := u.sender.out))
            && u.sender.out == if s.out == [] && (seg.Length() > 0 || KeepAlive(t.receiver, seg))
                               then [Packet(DataSegment(Wrap(s.nextSeq, s.isn), [], false), s.nextSeq, 0)]
                               else s.out
  {
    hide LogValid, TimerValid, Genuine, FillWindow, ReplyDue, KeepAlive, Wrap;
    KeepAliveMeans(t.receiver, seg);
  }

  lemma ReplyMoves(t: Connection, seg: TcpSegment)
    requires t.WellFormed() && t.Sound()
    ensures var u := Reply(t, seg);
            && u == t.(sender := u.sender) && Inv(u.sender) && Advances(t.sender, u.sender)
            && !u.sender.stream.error && u.sender.retx == t.sender.retx && 0 < u.sender.nextSeq
            && (seg.Length() > 0 || KeepAlive(t.receiver, seg) ==> u.sender.out != [])
  {
    hide LogValid, TimerValid, Genuine, FillWindow, SendEmpty, Advances, ReplyDue, KeepAlive;
    KeepAliveMeans(t.receiver, seg);
    FilledSender(t.sender);
    var s := FillWindow(t.sender);
    hide QueueValid;
    SendEmptyInv(s);
    AdvancesTrans(t.sender, s, SendEmpty(s));
  }

  /** A segment that is neither ignored nor a reset: the connection moves on, whatever it queues is current, and
      anything that occupied sequence numbers gets at least one segment in reply. */
  lemma ReceiveMoves(c: Connection, seg: TcpSegment)
    requires ConnInv(c) && c.active && !Ignored(c, seg) && !seg.header.rst && Receivable(c.receiver, seg)
    ensures Moves(c, Receive(c, seg)) && Emits(c, Receive(c, seg))
    ensures seg.Length() > 0 || KeepAlive(Receive(c, seg).receiver, seg) ==> |Receive(c, seg).out| > |c.out|
    ensures Receive(c, seg).active <==> !CleanStop(Receive(c, seg))
  {
    hide LogValid, TimerValid, Genuine, TakeIn, Reply, Enqueue, Advances, Ignored;
    var c1 := c.(sinceRecv := 0);
    TakeInMoves(c1, seg);
    var t := TakeIn(c1, seg);
    ReplyMoves(t, seg);
    var u := Reply(t, seg);
    AdvancesTrans(c.sender, t.sender, u.sender);
    hide QueueValid;
    ReceiveEnd(c, u);
  }

  lemma ReceiveEnd(c: Connection, u: Connection)
    requires ConnInv(c) && c.active && u.WellFormed() && u.Sound() && u.active
    requires Advances(c.sender, u.sender) && u.out == c.out && u.rtTimeout == c.rtTimeout
    requires u.sender.retx <= MAX_RETX_ATTEMPTS
    requires c.receiver.AbsAck() <= u.receiver.AbsAck()
    requires !c.receiver.listening ==> !u.receiver.listening && RightEdge(c.receiver) <= RightEdge(u.receiver)
    requires c.receiver.reasm.out.ended ==> u.receiver.reasm.out.ended
    requires !c.linger ==> !u.linger
    requires !u.linger ==> u.receiver.reasm.out.ended
    ensures var d := Enqueue(TryCleanShutdown(u));
            && Moves(c, d) && Emits(c, d) && |d.out| == |c.out| + |u.sender.out|
            && (d.active <==> !CleanStop(d)) && d.receiver == u.receiver && d.linger == u.linger
            && d.sender == u.sender.(out := [])
  {
    hide LogValid, QueueValid, TimerValid, Genuine, Enqueue, Advances;
    var v := TryCleanShutdown(u);
    SelfAdvances(v.sender);
    SendOn(v, v.sender);
    AdvancesTrans(c.sender, v.sender, v.sender.(out := []));
    assert Enqueue(v).sender.State() == v.sender.State();
  }

  lemma SelfAdvances(s: Sender)
    ensures Advances(s, s) && Advances(s, s.(out := []))
  {
  }

  /** Who lingers: a side gives it up exactly when the peer has finished and its own FIN, though its SYN was
      acknowledged, had not been sent before this segment, whether or not its stream has ended. */
  lemma LingerDecided(c: Connection, seg: TcpSegment)
    requires ConnInv(c) && c.active && !Ignored(c, seg) && !seg.header.rst && Receivable(c.receiver, seg)
    ensures var d := Receive(c, seg);
            d.linger <==> c.linger && !(d.receiver.reasm.out.ended && 0 < d.sender.lastAck && !FinSentBy(c.sender))
  {
    hide LogValid, TimerValid, Genuine, Reply, Enqueue, Ignored, SegmentReceived, FillWindow, Receivable;
    var c1 := c.(sinceRecv := 0);
    TakeInReady(c1, seg);
    TakeInMoves(c1, seg);
    var t := TakeIn(c1, seg);
    TakeInLinger(c1, seg);
    hide TakeIn;
    ReplyExact(t, seg);
    ReplyMoves(t, seg);
    FillKeepsAck(t.sender);
    hide QueueValid;
    EnqueueEmits(TryCleanShutdown(Reply(t, seg)));
  }

  lemma FillKeepsAck(s: Sender)
    requires Inv(s) && !s.stream.error
    ensures FillWindow(s).lastAck == s.lastAck && FillWindow(s).window == s.window
  {
    hide LogValid, TimerValid, Genuine, FillLoop;
    FillWindowInv(s);
  }

  lemma TakeInLinger(c: Connection, seg: TcpSegment)
    requires c.WellFormed() && c.Sound() && Receivable(c.receiver, seg)
    ensures var t := TakeIn(c, seg);
            t.linger <==> c.linger && !(t.receiver.reasm.out.ended && 0 < t.sender.lastAck && !FinSentBy(c.sender))
  {
    hide Unwrap, LogValid, TimerValid, Genuine, SegmentReceived, AckReceived, Receivable;
    var s := if seg.header.ack then AckReceived(c.sender, seg.header.ackno, seg.header.win) else c.sender;
    if seg.header.ack {
      AckReceivedInv(c.sender, seg.header.ackno, seg.header.win);
    }
    assert s.stream == c.sender.stream && s.sent == c.sender.sent;
    TakeInReady(c, seg);
    ReceiveAdvances(c.receiver, seg);
    if 0 < s.nextSeq {
      SynAckedMeans(s);
    }
  }

  // ---- time ----

  lemma TickMoves(c: Connection, ms: nat)
    requires ConnInv(c) && c.active
    requires TickedSender(c, ms).retx <= MAX_RETX_ATTEMPTS
    ensures Moves(c, TickBy(c, ms)) && Emits(c, TickBy(c, ms))
    ensures TickBy(c, ms).active <==> !CleanStop(TickBy(c, ms))
  {
    hide LogValid, TimerValid, Genuine, Tick, Enqueue, Advances;
    TickInv(c.sender, ms);
    var u := c.(sinceRecv := c.sinceRecv + ms, sender := Tick(c.sender, ms));
    hide QueueValid;
    ReceiveEnd(c, u);
  }

  ghost function TickedSender(c: Connection, ms: nat): Sender
    requires c.WellFormed()
  {
    TickInv(c.sender, ms);
    Tick(c.sender, ms)
  }

  /** A connection that was reset: both streams are in error and it is over. */
  ghost predicate WasReset(d: Connection) {
    ConnInv(d) && !d.active && !d.linger && d.receiver.reasm.out.error && d.sender.stream.error
  }

  lemma UncleanReset(c: Connection, needRst: bool)
    requires c.WellFormed() && c.sender.initRto == c.rtTimeout
    ensures WasReset(UncleanShutdown(c).(needRst := needRst)) && Advances(c.sender, UncleanShutdown(c).sender)
  {
    hide LogValid, QueueValid, TimerValid, Genuine;
    DrainInv(c.sender, c.sender.out, true);
  }

  /** Giving up: only after the ninth expiry in a row, so at least 511 times the initial timeout after the last
      acknowledgement of new data or the start of the timer; the oldest outstanding segment, marked as a reset, is
      queued and stays in the sender's own queue. */
  lemma TickGivesUp(c: Connection, ms: nat)
    requires ConnInv(c) && c.active
    requires TickedSender(c, ms).retx > MAX_RETX_ATTEMPTS
    ensures var d := TickBy(c, ms);
            && WasReset(d) && d.needRst && Advances(c.sender, d.sender) && d.rtTimeout == c.rtTimeout
            && d.sender.quiet >= 511 * c.rtTimeout
            && c.sender.outstanding != []
            && var seg := c.sender.outstanding[0];
               && d.out == c.out + [Packet(seg.(header := seg.header.(rst := true)), c.sender.Front(), 0)]
               && d.sender.out == [Packet(seg, c.sender.Front(), 0)]
  {
    hide LogValid, Genuine, Advances, QueueValid;
    TickInv(c.sender, ms);
    var s := Tick(c.sender, ms);
    RetxStep(c.sender, ms);
    NineExpiries(s);
    hide Tick, TimerValid;
    var c1 := c.(sinceRecv := c.sinceRecv + ms, sender := s);
    UncleanReset(c1, true);
    var c2 := UncleanShutdown(c1).(needRst := true);
    SendEmptyInv(c2.sender);
    AdvancesTrans(c.sender, s, c2.sender);
    AdvancesTrans(c.sender, c2.sender, SendEmpty(c2.sender));
  }

  /** A tick resets the connection exactly when eight retransmissions were counted and it finds the timer expired and
      the window open. */
  lemma GivesUpExactly(c: Connection, ms: nat)
    requires ConnInv(c) && c.active
    ensures TickBy(c, ms).Sound() <==>
            !(&& c.sender.outstanding != [] && c.sender.timer.timeout <= c.sender.timer.elapsed + ms
              && 0 < c.sender.window && c.sender.retx == 8)
  {
    hide LogValid, QueueValid, Genuine;
    TickInv(c.sender, ms);
    if TickedSender(c, ms).retx <= MAX_RETX_ATTEMPTS {
      TickMoves(c, ms);
    } else {
      TickGivesUp(c, ms);
    }
  }

  lemma RetxStep(s: Sender, ms: nat)
    requires Inv(s)
    requires Elapse(s, ms).timer.Expired() ==> s.outstanding != []
    ensures Tick(s, ms).retx <= s.retx + 1
  {
    hide Inv;
  }

  lemma NineExpiries(s: Sender)
    requires TimerValid(s) && s.retx == 9
    ensures s.quiet >= 511 * s.initRto
  {
    assert Pow2(9) == 512;
  }

  /** A peer's reset, unless it comes while listening, ends the connection at once. */
  lemma ReceiveReset(c: Connection, seg: TcpSegment)
    requires ConnInv(c) && c.active && !Ignored(c, seg) && seg.header.rst
    ensures WasReset(Receive(c, seg)) && Advances(c.sender, Receive(c, seg).sender) && Receive(c, seg).out == c.out
  {
    hide LogValid, QueueValid, TimerValid, Genuine, Ignored;
    UncleanReset(c.(sinceRecv := 0), false);
  }

  /** While nothing has been sent or received, only a bare SYN is heard. */
  lemma ListenerHears(c: Connection, seg: TcpSegment)
    requires c.WellFormed() && c.Sound() && c.receiver.listening && c.sender.nextSeq == 0
    ensures (!seg.header.syn || seg.header.ack || seg.header.rst) ==> Acceptable(c, seg) && Receive(c, seg) == c
    ensures seg.header.syn && !seg.header.ack && !seg.header.rst && Acceptable(c, seg) ==>
              var d := Receive(c, seg);
              && d.receiver.isn == Some(seg.header.seqno) && !d.receiver.listening && d.Sound() && d.sinceRecv == 0
              && 0 < d.sender.nextSeq && |c.out| < |d.out|
  {
    hide LogValid, QueueValid, TimerValid, Genuine, Handle, SegmentReceived, Receivable;
    if seg.header.syn && !seg.header.ack && !seg.header.rst && Acceptable(c, seg) {
      HandleParts(c.(sinceRecv := 0), seg);
      SynHeard(c.receiver, seg);
    }
  }

  lemma SynHeard(r: Receiver, seg: TcpSegment)
    requires r.WellFormed() && !r.reasm.out.error && r.listening && seg.header.syn && Receivable(r, seg)
    ensures !SegmentReceived(r, seg).listening && SegmentReceived(r, seg).isn == Some(seg.header.seqno)
  {
    hide Push, Unwrap;
  }

  /** What a segment leaves of both halves. */
  lemma HandleParts(c: Connection, seg: TcpSegment)
    requires c.WellFormed() && c.Sound() && Receivable(c.receiver, seg)
    ensures var d := Handle(c, seg);
            && d.receiver == SegmentReceived(c.receiver, seg) && d.Sound() && d.sinceRecv == c.sinceRecv
            && 0 < d.sender.nextSeq && (seg.Length() > 0 ==> |c.out| < |d.out|)
  {
    hide LogValid, TimerValid, Genuine, TakeIn, Reply, Enqueue, Advances, FillWindow, SegmentReceived;
    TakeInMoves(c, seg);
    TakeInReady(c, seg);
    var t := TakeIn(c, seg);
    ReplyMoves(t, seg);
    var u := TryCleanShutdown(Reply(t, seg));
    hide QueueValid;
    EnqueueEmits(u);
  }

  /** Once anything has been sent or received, a reset ends the connection, whatever else is on the segment. */
  lemma ResetHeard(c: Connection, seg: TcpSegment)
    requires ConnInv(c) && c.active && seg.header.rst && (!c.receiver.listening || 0 < c.sender.nextSeq)
    ensures Acceptable(c, seg)
    ensures var d := Receive(c, seg);
            && WasReset(d) && d.out == c.out && !d.needRst && d.sinceRecv == 0
            && d.receiver.reasm.out.written == c.receiver.reasm.out.written
            && d.receiver.Progress() == c.receiver.Progress()
            && d.sender.stream == c.sender.stream.(error := true)
  {
    hide LogValid, QueueValid, TimerValid, Genuine;
    UncleanReset(c.(sinceRecv := 0), false);
  }

  // ---- what a clean stop means ----

  /** A connection that is over without having been reset has received the whole inbound stream, and either had
      everything it sent acknowledged, FIN included, or lingered for ten timeouts since the last segment. */
  lemma StopMeans(c: Connection)
    requires ConnInv(c) && c.Sound() && !c.active
    ensures c.receiver.State().FinRecv?
    ensures c.linger ==> c.sinceRecv >= 10 * c.rtTimeout
    ensures !c.linger ==>
              && c.sender.stream.ended && c.sender.stream.read == |c.sender.stream.written|
              && c.sender.lastAck == c.sender.nextSeq == |c.sender.stream.written| + 2 && c.sender.outstanding == []
  {
    if !c.linger {
      FinAckedMeans(c.sender);
    }
  }

  /** The two clean stops, exactly: lingering for ten timeouts after the peer's end, whatever is still unacknowledged;
      or, without lingering, having FIN and everything before it acknowledged. */
  lemma CleanStopMeans(c: Connection)
    requires c.WellFormed() && c.Sound()
    ensures CleanStop(c) <==> if c.linger then c.receiver.reasm.out.ended && c.sinceRecv >= 10 * c.rtTimeout
                              else FinSentBy(c.sender) && c.sender.lastAck == |c.sender.stream.written| + 2
  {
    hide TimerValid, Genuine;
    if !c.linger && c.sender.State().FinAcked? {
      FinAckedMeans(c.sender);
    }
    if FinSentBy(c.sender) {
      FinSentMeans(c.sender);
      if c.sender.lastAck == c.sender.nextSeq {
        FinAckedWhole(c.sender);
      }
    }
  }

  lemma FinAckedWhole(s: Sender)
    requires LogValid(s) && QueueValid(s) && s.lastAck == s.nextSeq
    ensures s.outstanding == [] && s.inFlight == 0
  {
    hide Entry;
    if s.outstanding != [] {
      EntryBounds(s, |s.sent| - |s.outstanding|);
    }
  }

  lemma FinAckedMeans(s: Sender)
    requires Inv(s) && s.State().FinAcked?
    ensures s.stream.ended && s.stream.read == |s.stream.written|
    ensures s.lastAck == s.nextSeq == |s.stream.written| + 2 && s.outstanding == []
  {
    hide TimerValid, Genuine;
    if s.outstanding != [] {
      EntryBounds(s, |s.sent| - |s.outstanding|);
    }
  }
}
