/** What a call of a connection puts on the outbound queue. */
module Transmission {
  import opened Bytes
  import opened WrappingIntegers
  import opened Segments
  import opened Receiving
  import opened Sending
  import opened SenderInvariants
  import opened SenderRuns
  import opened Connecting
  import opened ConnectionInvariants
  import opened Links

  lemma EnqueueKeepsSent(c: Connection)
    requires c.receiver.reasm.out.WellFormed() && (c.receiver.listening || c.receiver.isn.Some?)
    ensures Enqueue(c) == c.(out := Enqueue(c).out, sender := c.sender.(out := Enqueue(c).sender.out))
  {
  }

  /** One segment goes out, stamped. */
  lemma OneStamped(c: Connection, p: Packet)
    requires c.receiver.reasm.out.WellFormed() && (c.receiver.listening || c.receiver.isn.Some?)
    requires !c.needRst && c.sender.out == [p]
    ensures Enqueue(c) == c.(out := c.out + [Stamp(c.receiver, p)], sender := c.sender.(out := []))
  {
    hide Stamp;
    assert StampAll(c.receiver, [p]) == [Stamp(c.receiver, p)];
  }

  // ---- filling the window ----

  /** Filling the window queues exactly what it sends. */
  lemma FillSends(s: Sender)
    requires Inv(s) && !s.stream.error
    ensures var t := FillWindow(s);
            s.out <= t.out && s.sent <= t.sent && t.out[|s.out|..] == t.sent[|s.sent|..]
  {
    hide LogValid, TimerValid, Genuine, FillLoop;
    FillWindowInv(s);
    if s.nextSeq == 0 {
      var t := FillWindow(s);
      var p := Packet(SynSegment(s.isn), s.nextSeq, 0);
      assert t.out[|s.out|..] == [p] == t.sent[|s.sent|..];
    }
  }

  /** Nothing it sends starts below the next sequence number, and the first thing starts there. */
  lemma FillStartsBeyond(s: Sender, i: nat)
    requires Inv(s) && !s.stream.error && s.out == [] && i < |FillWindow(s).out|
    ensures var p := FillWindow(s).out[i];
            && s.nextSeq <= p.abs && 0 < p.seg.Length() && !p.seg.header.rst
            && (i == 0 ==> p.abs == s.nextSeq)
  {
    hide TimerValid, Genuine, CarriesSlice, FillWindow, Wrap;
    FillSends(s);
    FillWindowInv(s);
    var t := FillWindow(s);
    var k := |s.sent| + i;
    assert t.out[i] == t.out[|s.out|..][i] == t.sent[k];
    NewStartsBeyond(s, t, k);
    assert Entry(t.sent, k, t.isn, t.stream.written, t.stream.ended);
    if i == 0 && 0 < k {
      assert t.sent[k - 1] == s.sent[k - 1];
    }
  }

  /** Whether anything is sent shows in the next sequence number. */
  lemma FillSomething(s: Sender)
    requires Inv(s) && !s.stream.error && s.out == []
    ensures FillWindow(s).out == [] ==> FillWindow(s).nextSeq == s.nextSeq
  {
    hide TimerValid, Genuine, Entry, FillWindow;
    FillSends(s);
    FillWindowInv(s);
    var t := FillWindow(s);
    if t.out == [] {
      assert t.sent[|s.sent|..] == [];
      assert t.sent == s.sent;
    }
  }

  // ---- what is new on the outbound queue ----

  /** Everything new on the queue starts at `n` or beyond, or is a reset. */
  ghost predicate NewBeyond(c: Connection, d: Connection, n: nat) {
    && c.out <= d.out
    && forall i :: |c.out| <= i < |d.out| ==> n <= d.out[i].abs || d.out[i].seg.header.rst
  }

  lemma EnqueueBeyond(u: Connection, n: nat)
    requires u.receiver.reasm.out.WellFormed() && (u.receiver.listening || u.receiver.isn.Some?)
    requires forall p :: p in u.sender.out ==> n <= p.abs
    ensures NewBeyond(u, Enqueue(u), n)
  {
    var d := Enqueue(u);
    if u.sender.out != [] && !u.needRst {
      forall i | |u.out| <= i < |d.out|
        ensures n <= d.out[i].abs
      {
        assert d.out[i] == Stamp(u.receiver, u.sender.out[i - |u.out|]);
        assert u.sender.out[i - |u.out|] in u.sender.out;
      }
    }
  }

  lemma FillCallBeyond(c: Connection, s: Sender)
    requires c.WellFormed() && c.Sound() && Inv(s) && !s.stream.error && s.out == []
    ensures NewBeyond(c, FillAndQueue(c.(sender := s)), s.nextSeq)
  {
    hide LogValid, TimerValid, Genuine, FillWindow, Enqueue, NewBeyond;
    var u := c.(sender := FillWindow(s));
    forall p | p in u.sender.out
      ensures s.nextSeq <= p.abs
    {
      var i :| 0 <= i < |u.sender.out| && u.sender.out[i] == p;
      FillStartsBeyond(s, i);
    }
    EnqueueBeyond(u, s.nextSeq);
    SameBeyond(c, u, FillAndQueue(c.(sender := s)), s.nextSeq);
  }

  lemma SameBeyond(c: Connection, u: Connection, d: Connection, n: nat)
    requires NewBeyond(u, d, n) && u.out == c.out
    ensures NewBeyond(c, d, n)
  {
  }

  // ---- answering a segment ----

  lemma TakeInSent(c: Connection, seg: TcpSegment)
    requires c.WellFormed() && c.Sound() && Receivable(c.receiver, seg)
    ensures TakeIn(c, seg).sender.sent == c.sender.sent
  {
    hide LogValid, QueueValid, TimerValid, Genuine, Unwrap, SegmentReceived;
    if seg.header.ack {
      AckReceivedInv(c.sender, seg.header.ackno, seg.header.win);
    }
  }

  /** The sender after it took its part of a segment in and filled its window. */
  ghost function Refilled(c: Connection, seg: TcpSegment): Sender
    requires c.WellFormed() && c.Sound() && Receivable(c.receiver, seg)
  {
    hide LogValid, TimerValid, Genuine, TakeIn;
    TakeInReady(c, seg);
    FillWindow(TakeIn(c, seg).sender)
  }

  lemma EmptyKeepsQueue(s: Sender)
    ensures SendEmpty(s) == s.(out := SendEmpty(s).out) && s.out <= SendEmpty(s).out
    ensures forall p :: p in SendEmpty(s).out ==> p in s.out || p.abs == s.nextSeq
  {
    hide Wrap;
  }

  /** The parts of a connection after it took a segment in and answered it. */
  lemma HandledParts(c: Connection, seg: TcpSegment)
    requires c.WellFormed() && c.Sound() && Receivable(c.receiver, seg) && c.sender.out == []
    ensures var d := Handle(c, seg);
            && d.sender == Refilled(c, seg).(out := d.sender.out)
            && d.receiver == SegmentReceived(c.receiver, seg)
            && d.sinceRecv == c.sinceRecv && d.rtTimeout == c.rtTimeout
            && NewBeyond(c, d, c.sender.nextSeq)
  {
    hide LogValid, TimerValid, Genuine, FillWindow, Enqueue, TakeIn, SegmentReceived, NewBeyond, Receivable, Reply;
    TakeInReady(c, seg);
    TakeInSent(c, seg);
    TakeInNext(c, seg);
    var t := TakeIn(c, seg);
    var u := TryCleanShutdown(Reply(t, seg));
    ReplyBeyond(t, seg);
    EnqueueKeepsSent(u);
    EnqueueBeyond(u, c.sender.nextSeq);
    SameBeyond(c, u, Enqueue(u), c.sender.nextSeq);
  }

  /** The reply to a segment says nothing again. */
  lemma ReplyBeyond(t: Connection, seg: TcpSegment)
    requires Inv(t.sender) && !t.sender.stream.error && t.sender.out == []
    requires t.receiver.listening || t.receiver.isn.Some?
    ensures var u := Reply(t, seg);
            && u == t.(sender := u.sender) && u.sender == FillWindow(t.sender).(out := u.sender.out)
            && forall p :: p in u.sender.out ==> t.sender.nextSeq <= p.abs
  {
    hide LogValid, TimerValid, Genuine, FillWindow, SendEmpty, ReplyDue;
    var s := FillWindow(t.sender);
    FillWindowInv(t.sender);
    EmptyKeepsQueue(s);
    forall p | p in Reply(t, seg).sender.out
      ensures t.sender.nextSeq <= p.abs
    {
      if p in s.out {
        var i :| 0 <= i < |s.out| && s.out[i] == p;
        FillStartsBeyond(t.sender, i);
      }
    }
  }

  /** The reply to a segment, exactly: everything sent for the first time leaves at once, in order and stamped; if
      nothing was, anything that occupied numbers and a keep-alive probe are answered with one empty segment; nothing
      else is queued. */
  ghost predicate AnsweredWith(c: Connection, d: Connection, seg: TcpSegment) {
    && d.receiver.WellFormed() && c.sender.sent <= d.sender.sent && c.out <= d.out
    && var queued := d.out[|c.out|..];
       var sent := d.sender.sent[|c.sender.sent|..];
       if sent != [] then queued == StampAll(d.receiver, sent)
       else if seg.Length() > 0 || KeepAlive(d.receiver, seg) then
         queued == [Stamp(d.receiver, Packet(DataSegment(Wrap(d.sender.nextSeq, d.sender.isn), [], false),
                                          d.sender.nextSeq, 0))]
       else queued == []
  }

  lemma AnsweredExactly(c: Connection, seg: TcpSegment)
    requires ConnInv(c) && c.active && Receivable(c.receiver, seg) && !seg.header.rst
    requires !c.receiver.listening || 0 < c.sender.nextSeq || (seg.header.syn && !seg.header.ack)
    ensures AnsweredWith(c, Receive(c, seg), seg)
  {
    hide LogValid, QueueValid, TimerValid, Genuine, Receivable, Handle, AnsweredWith;
    HandleAnswers(c.(sinceRecv := 0), seg);
    SameAnswer(c, c.(sinceRecv := 0), Handle(c.(sinceRecv := 0), seg), seg);
  }

  lemma SameAnswer(c: Connection, t: Connection, d: Connection, seg: TcpSegment)
    requires AnsweredWith(t, d, seg) && t.out == c.out && t.sender.sent == c.sender.sent
    ensures AnsweredWith(c, d, seg)
  {
    hide KeepAlive, Stamp, StampAll, Wrap;
  }

  lemma HandleAnswers(c: Connection, seg: TcpSegment)
    requires c.WellFormed() && c.Sound() && c.sender.out == [] && Receivable(c.receiver, seg)
    ensures AnsweredWith(c, Handle(c, seg), seg)
  {
    hide LogValid, TimerValid, Genuine, FillWindow, Enqueue, TakeIn, SegmentReceived, Receivable, Reply, AnsweredWith;
    TakeInReady(c, seg);
    TakeInMoves(c, seg);
    TakeInSent(c, seg);
    var t := TakeIn(c, seg);
    ReplyExact(t, seg);
    FillSends(t.sender);
    hide QueueValid;
    ReplyLeaves(t, TryCleanShutdown(Reply(t, seg)), FillWindow(t.sender), seg);
    SameAnswer(c, t, Handle(c, seg), seg);
  }

  lemma ReplyLeaves(t: Connection, u: Connection, s: Sender, seg: TcpSegment)
    requires t.receiver.WellFormed() && !t.needRst && t.sender.out == []
    requires t.sender.sent <= s.sent && s.out == s.sent[|t.sender.sent|..]
    requires u == t.(sender := s.(out := u.sender.out), active := u.active)
    requires u.sender.out == if s.out == [] && (seg.Length() > 0 || KeepAlive(t.receiver, seg))
                             then [Packet(DataSegment(Wrap(s.nextSeq, s.isn), [], false), s.nextSeq, 0)]
                             else s.out
    ensures AnsweredWith(t, Enqueue(u), seg)
  {
    hide Stamp, KeepAlive, Wrap;
    if |u.sender.out| == 1 {
      OneStamped(u, u.sender.out[0]);
    }
  }

  lemma TakeInNext(c: Connection, seg: TcpSegment)
    requires c.WellFormed() && c.Sound() && Receivable(c.receiver, seg)
    ensures TakeIn(c, seg).sender.nextSeq == c.sender.nextSeq
  {
    hide LogValid, QueueValid, TimerValid, Genuine, Unwrap, SegmentReceived;
    if seg.header.ack {
      AckReceivedInv(c.sender, seg.header.ackno, seg.header.win);
    }
  }

  // ---- letting the timeout pass ----

  /** The oldest outstanding segment, as it goes out when the timeout has passed. */
  function Again(c: Connection): Packet
    requires c.receiver.reasm.out.WellFormed() && (c.receiver.listening || c.receiver.isn.Some?)
    requires c.sender.outstanding != []
  {
    Stamp(c.receiver, Packet(c.sender.outstanding[0], c.sender.Front(), 0))
  }

  /** Letting the timeout pass puts the oldest outstanding segment on the queue again, as long as the attempt is not one
      too many. */
  lemma ExpirySends(c: Connection, ms: nat)
    requires ConnInv(c) && c.active && c.sender.outstanding != []
    requires c.sender.timer.timeout <= c.sender.timer.elapsed + ms
    requires c.sender.window == 0 || c.sender.retx < MAX_RETX_ATTEMPTS
    ensures var d := TickBy(c, ms);
            && d.out == c.out + [Again(c)] && d.receiver == c.receiver && d.rtTimeout == c.rtTimeout
            && d.sinceRecv == c.sinceRecv + ms && d.linger == c.linger
            && d.sender.lastAck == c.sender.lastAck && d.sender.nextSeq == c.sender.nextSeq
            && d.sender.outstanding == c.sender.outstanding && d.sender.stream == c.sender.stream
            && d.sender.window == c.sender.window && d.sender.sent == c.sender.sent
            && d.sender.retx == (if c.sender.window == 0 then c.sender.retx else c.sender.retx + 1)
            && d.sender.timer ==
               TimerValue(if c.sender.window == 0 then c.sender.timer.timeout else 2 * c.sender.timer.timeout, 0, true)
            && d.Sound() && (d.active <==> !CleanStop(d))
  {
    hide LogValid, QueueValid, Genuine, Enqueue, Stamp, CleanStop;
    OldestSentAgain(c.sender, ms);
    TickInv(c.sender, ms);
    TickMoves(c, ms);
    var u := AfterTick(c.(sinceRecv := c.sinceRecv + ms, sender := Tick(c.sender, ms)));
    hide TimerValid, Tick;
    OneStamped(u, Packet(c.sender.outstanding[0], c.sender.Front(), 0));
  }

  // ---- what a call of the owner queues ----

  /** The sender's new transmissions, stamped and in order, and nothing else, went to the outbound queue. */
  ghost predicate SentOn(c: Connection, d: Connection) {
    && d.receiver.WellFormed() && c.sender.sent <= d.sender.sent && d.sender.out == []
    && d.out == c.out + StampAll(d.receiver, d.sender.sent[|c.sender.sent|..])
  }

  lemma FillSentOn(c: Connection, s: Sender)
    requires ConnInv(c) && c.active && Inv(s) && !s.stream.error && s.sent == c.sender.sent && s.out == []
    ensures SentOn(c, FillAndQueue(c.(sender := s)))
  {
    hide LogValid, TimerValid, Genuine, FillWindow, StampAll;
    FillSends(s);
    var t := FillWindow(s);
    assert t.out[0..] == t.out;
    assert t.out == [] ==> StampAll(c.receiver, t.out) == [];
  }

  /** Connecting, writing and ending queue exactly what they send for the first time. */
  lemma CallSentOn(c: Connection, op: ConnOp)
    requires ConnInv(c) && Permitted(c, op) && (op.Connect? || op.WriteOp? || op.EndOp?)
    ensures SentOn(c, ConnectionInvariants.Step(c, op))
  {
    hide LogValid, QueueValid, TimerValid, Genuine, FillAndQueue, SentOn;
    match op
    case Connect => FillSentOn(c, c.sender);
    case WriteOp(data) =>
      WriteInv(c.sender, data);
      FillSentOn(c, c.sender.(stream := c.sender.stream.Write(data)));
    case EndOp =>
      EndInputInv(c.sender);
      FillSentOn(c, c.sender.(stream := c.sender.stream.EndInput()));
  }

  /** Before the timeout a tick queues nothing; at it, `ExpirySends` and `TickGivesUp` say what. */
  lemma EarlyTickQueuesNothing(c: Connection, ms: nat)
    requires ConnInv(c) && c.active
    requires c.sender.outstanding == [] || c.sender.timer.elapsed + ms < c.sender.timer.timeout
    ensures TickBy(c, ms).out == c.out && TickBy(c, ms).sender.sent == c.sender.sent
  {
    hide LogValid, QueueValid, Genuine;
    TickInv(c.sender, ms);
    NothingSentEarly(c.sender, ms);
    hide TimerValid, Tick;
  }

  // ---- what an acknowledgement does ----

  /** A segment without acknowledgement tells the sender nothing; one with it, near enough to be read rightly, moves the
      last acknowledgement forward if it is new and possible, and sets the window unless it is old or impossible. */
  lemma AckHeard(c: Connection, seg: TcpSegment, n: nat)
    requires ConnInv(c) && c.active && Receivable(c.receiver, seg) && !seg.header.rst
    requires !c.receiver.listening || 0 < c.sender.nextSeq || (seg.header.syn && !seg.header.ack)
    requires seg.header.ackno == Wrap(n, c.sender.isn)
    requires var last := c.sender.lastAck;
             if n < last then last - n <= TWO31 else n - last < TWO31 || n < TWO32
    ensures var s, t := c.sender, Receive(c, seg).sender;
            && t.lastAck == (if seg.header.ack && s.lastAck < n <= s.nextSeq then n else s.lastAck)
            && t.window == (if seg.header.ack && s.lastAck <= n <= s.nextSeq then seg.header.win else s.window)
            && t.retx == (if t.lastAck == s.lastAck then s.retx else 0)
  {
    hide LogValid, QueueValid, TimerValid, Genuine, Receivable, Handle, Refilled;
    var c1 := c.(sinceRecv := 0);
    HandledParts(c1, seg);
    UnwrapRecovers(n, c.sender.isn, c.sender.lastAck);
    RefilledAck(c1, seg, n);
  }

  lemma RefilledAck(c: Connection, seg: TcpSegment, n: nat)
    requires c.WellFormed() && c.Sound() && Receivable(c.receiver, seg)
    requires Unwrap(seg.header.ackno, c.sender.isn, c.sender.lastAck) == n
    ensures var s, t := c.sender, Refilled(c, seg);
            && t.lastAck == (if seg.header.ack && s.lastAck < n <= s.nextSeq then n else s.lastAck)
            && t.window == (if seg.header.ack && s.lastAck <= n <= s.nextSeq then seg.header.win else s.window)
            && t.retx == (if t.lastAck == s.lastAck then s.retx else 0)
  {
    hide LogValid, TimerValid, Genuine, Receivable, SegmentReceived, AckReceived, FillWindow, Unwrap;
    TakeInReady(c, seg);
    if seg.header.ack {
      AckReceivedInv(c.sender, seg.header.ackno, seg.header.win);
    }
    FillKeepsAck(TakeIn(c, seg).sender);
    FilledSender(TakeIn(c, seg).sender);
  }
}
