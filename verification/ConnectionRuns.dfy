/** Whole lives of a connection: no state is gone back to, and nobody gives up early. */
module ConnectionRuns {
  import opened Bytes
  import opened WrappingIntegers
  import opened Segments
  import opened Receiving
  import opened Sending
  import opened SenderInvariants
  import opened Connecting
  import opened ConnectionInvariants

  function SenderRank(s: SenderState): nat {
    match s
    case Failed => 5
    case Closed => 0
    case SynSent => 1
    case SynAcked => 2
    case FinSent => 3
    case FinAcked => 4
  }

  function ReceiverRank(r: ReceiverState): nat {
    match r
    case Error => 3
    case Listen => 0
    case SynRecv => 1
    case FinRecv => 2
  }

  /** The sender's state never goes back. */
  lemma SenderRankGrows(s: Sender, t: Sender)
    requires Inv(s) && Inv(t) && Advances(s, t) && !t.stream.error
    ensures SenderRank(s.State()) <= SenderRank(t.State())
  {
    hide Entry, TimerValid, Genuine;
    if s.State().FinSent? || s.State().FinAcked? {
      assert t.stream.read == |t.stream.written| == |s.stream.written|;
    }
  }

  /** From one call to the next: states and advertisements only move forward. */
  ghost predicate Onward(c: Connection, d: Connection) {
    && SenderRank(c.sender.State()) <= SenderRank(d.sender.State())
    && ReceiverRank(c.receiver.State()) <= ReceiverRank(d.receiver.State())
    && (d.active ==> c.active)
    && (d.Sound() ==>
          && c.Sound()
          && c.receiver.AbsAck() <= d.receiver.AbsAck()
          && (!c.receiver.listening ==> !d.receiver.listening && RightEdge(c.receiver) <= RightEdge(d.receiver)))
  }

  lemma MovesOnward(c: Connection, d: Connection)
    requires ConnInv(c) && c.Sound() && Moves(c, d)
    ensures Onward(c, d)
  {
    SenderRankGrows(c.sender, d.sender);
    hide Inv;
  }

  lemma SelfOnward(c: Connection)
    ensures Onward(c, c)
  {
  }

  function Ticks(ops: seq<ConnOp>): nat {
    if ops == [] then 0 else (if ops[0].TickOp? then ops[0].ms else 0) + Ticks(ops[1..])
  }

  /** The outcome of one call. */
  ghost predicate Stepped(c: Connection, op: ConnOp, d: Connection) {
    && ConnInv(d) && Onward(c, d) && Advances(c.sender, d.sender) && d.rtTimeout == c.rtTimeout
    && d.sender.quiet <= c.sender.quiet + Ticks([op])
    && (d.Sound() && !op.Flush? ==> Emits(c, d))
    && (d.needRst && !c.needRst ==> d.sender.quiet >= 511 * c.rtTimeout)
  }

  lemma QuietFill(c: Connection, s: Sender)
    requires c.WellFormed() && Inv(s) && s.quiet <= c.sender.quiet
    ensures FillAndQueue(c.(sender := s)).sender.quiet <= c.sender.quiet
  {
    hide LogValid, TimerValid, Genuine, FillWindow, StampAll;
    FillKeepsStream(s);
  }

  lemma QuietReceive(c: Connection, seg: TcpSegment)
    requires c.WellFormed() && c.Sound() && Acceptable(c, seg)
    ensures Receive(c, seg).sender.quiet <= c.sender.quiet
  {
    hide LogValid, TimerValid, Genuine, FillWindow, StampAll, TakeIn, Receivable, Ignored, Reply;
    if !Ignored(c, seg) && !seg.header.rst {
      var c1 := c.(sinceRecv := 0);
      TakeInReady(c1, seg);
      TakeInMoves(c1, seg);
      QuietTakeIn(c1, seg);
      ReplyExact(TakeIn(c1, seg), seg);
      FillKeepsStream(TakeIn(c1, seg).sender);
    }
  }

  lemma QuietTakeIn(c: Connection, seg: TcpSegment)
    requires c.WellFormed() && c.Sound() && Receivable(c.receiver, seg)
    ensures TakeIn(c, seg).sender.quiet <= c.sender.quiet
  {
    hide LogValid, QueueValid, TimerValid, Genuine, AckReceived, SegmentReceived, Receivable, Unwrap;
    if seg.header.ack {
      AckReceivedInv(c.sender, seg.header.ackno, seg.header.win);
    }
  }

  lemma QuietTick(c: Connection, ms: nat)
    requires c.WellFormed() && c.Sound()
    ensures TickBy(c, ms).sender.quiet <= c.sender.quiet + ms
  {
    hide LogValid, TimerValid, Genuine, StampAll;
    TickInv(c.sender, ms);
  }

  lemma StepMoves(c: Connection, op: ConnOp)
    requires ConnInv(c) && Permitted(c, op)
    ensures Stepped(c, op, Step(c, op))
  {
    hide LogValid, TimerValid, Genuine, Emits, Receive, FillAndQueue, WriteData, EndInputStream, TickBy, Onward;
    assert Ticks([op]) == if op.TickOp? then op.ms else 0;
    hide Ticks;
    match op
    case Segment(seg) => SegmentStep(c, seg);
    case Connect => ConnectStep(c);
    case WriteOp(data) => WriteStep(c, data);
    case EndOp => EndStep(c);
    case TickOp(ms) => TickStep(c, ms);
    case ReadOp(len) => ReadStep(c, len);
    case Flush => FlushStep(c);
  }

  lemma SegmentStep(c: Connection, seg: TcpSegment)
    requires ConnInv(c) && Permitted(c, Segment(seg))
    ensures var d := Receive(c, seg);
            && ConnInv(d) && Onward(c, d) && Advances(c.sender, d.sender) && d.rtTimeout == c.rtTimeout
            && d.sender.quiet <= c.sender.quiet && (d.Sound() ==> Emits(c, d)) && !d.needRst
  {
    hide LogValid, QueueValid, TimerValid, Genuine, TakeIn, Reply, Enqueue, Advances;
    QuietReceive(c, seg);
    SelfAdvances(c.sender);
    if Ignored(c, seg) {
      SelfOnward(c);
    } else if seg.header.rst {
      ReceiveReset(c, seg);
    } else {
      hide Ignored, Receive;
      ReceiveMoves(c, seg);
      MovesOnward(c, Receive(c, seg));
    }
  }

  /** A call that moved the connection on without a reset. */
  lemma MovedStep(c: Connection, d: Connection)
    requires ConnInv(c) && c.Sound() && Moves(c, d) && d.sender.quiet <= c.sender.quiet
    ensures ConnInv(d) && Onward(c, d) && Advances(c.sender, d.sender) && d.rtTimeout == c.rtTimeout && !d.needRst
  {
    hide Inv, Advances;
    MovesOnward(c, d);
  }

  lemma ConnectStep(c: Connection)
    requires ConnInv(c) && c.active
    ensures var d := FillAndQueue(c);
            && ConnInv(d) && Onward(c, d) && Advances(c.sender, d.sender) && d.rtTimeout == c.rtTimeout
            && d.sender.quiet <= c.sender.quiet && Emits(c, d) && !d.needRst
  {
    hide LogValid, TimerValid, Genuine, FillAndQueue, Advances, Moves, Onward, Emits;
    ConnectMoves(c);
    QuietFill(c, c.sender);
    MovedStep(c, FillAndQueue(c));
  }

  lemma WriteStep(c: Connection, data: seq<Byte>)
    requires ConnInv(c) && c.active && !c.sender.stream.ended
    ensures var d := WriteData(c, data);
            && ConnInv(d) && Onward(c, d) && Advances(c.sender, d.sender) && d.rtTimeout == c.rtTimeout
            && d.sender.quiet <= c.sender.quiet && Emits(c, d) && !d.needRst
  {
    hide LogValid, TimerValid, Genuine, FillAndQueue, Advances, Moves, Onward, Emits;
    WriteMoves(c, data);
    WriteInv(c.sender, data);
    QuietFill(c, c.sender.(stream := c.sender.stream.Write(data)));
    MovedStep(c, WriteData(c, data));
  }

  lemma EndStep(c: Connection)
    requires ConnInv(c) && c.active
    ensures var d := EndInputStream(c);
            && ConnInv(d) && Onward(c, d) && Advances(c.sender, d.sender) && d.rtTimeout == c.rtTimeout
            && d.sender.quiet <= c.sender.quiet && Emits(c, d) && !d.needRst
  {
    hide LogValid, TimerValid, Genuine, FillAndQueue, Advances, Moves, Onward, Emits;
    EndMoves(c);
    EndInputInv(c.sender);
    QuietFill(c, c.sender.(stream := c.sender.stream.EndInput()));
    MovedStep(c, EndInputStream(c));
  }

  lemma TickStep(c: Connection, ms: nat)
    requires ConnInv(c) && c.active
    ensures var d := TickBy(c, ms);
            && ConnInv(d) && Onward(c, d) && Advances(c.sender, d.sender) && d.rtTimeout == c.rtTimeout
            && d.sender.quiet <= c.sender.quiet + ms && (d.Sound() ==> Emits(c, d))
            && (d.needRst ==> d.sender.quiet >= 511 * c.rtTimeout)
  {
    hide LogValid, QueueValid, TimerValid, Genuine, TickBy, Advances, Emits;
    QuietTick(c, ms);
    if TickedSender(c, ms).retx <= MAX_RETX_ATTEMPTS {
      TickMoves(c, ms);
      MovesOnward(c, TickBy(c, ms));
    } else {
      TickGivesUp(c, ms);
    }
  }

  lemma ReadStep(c: Connection, len: nat)
    requires ConnInv(c)
    ensures var d := c.(receiver := ReadBy(c.receiver, len));
            ConnInv(d) && Onward(c, d) && Advances(c.sender, d.sender) && (d.Sound() ==> Emits(c, d))
  {
    hide LogValid, QueueValid, TimerValid, Genuine;
    ReadMoves(c, len);
    if c.Sound() {
      MovesOnward(c, c.(receiver := ReadBy(c.receiver, len)));
    }
  }

  lemma FlushStep(c: Connection)
    requires ConnInv(c)
    ensures ConnInv(c.(out := [])) && Onward(c, c.(out := [])) && Advances(c.sender, c.sender)
  {
    hide LogValid, QueueValid, TimerValid, Genuine;
  }

  // ---- runs ----

  ghost predicate PermittedRun(c: Connection, ops: seq<ConnOp>)
    requires ConnInv(c)
    decreases |ops|
  {
    ops != [] ==>
      && Permitted(c, ops[0])
      && (StepMoves(c, ops[0]);
          PermittedRun(Step(c, ops[0]), ops[1..]))
  }

  ghost function Run(c: Connection, ops: seq<ConnOp>): Connection
    requires ConnInv(c) && PermittedRun(c, ops)
    decreases |ops|
  {
    if ops == [] then c
    else
      StepMoves(c, ops[0]);
      Run(Step(c, ops[0]), ops[1..])
  }

  /** Over any run no state is gone back to, an inactive connection stays so, and neither the acknowledgement
      nor the right edge of the window retreats; and a connection that gave up had waited at least 511 times
      its timeout, less what it had already waited at the start of the run. */
  lemma {:induction false} RunOnward(c: Connection, ops: seq<ConnOp>)
    requires ConnInv(c) && PermittedRun(c, ops)
    ensures var d := Run(c, ops);
            && ConnInv(d) && Onward(c, d) && d.rtTimeout == c.rtTimeout
            && (d.needRst && !c.needRst ==> c.sender.quiet + Ticks(ops) >= 511 * c.rtTimeout)
    decreases |ops|
  {
    if ops == [] {
      SelfOnward(c);
    } else {
      StepMoves(c, ops[0]);
      var e := Step(c, ops[0]);
      RunOnward(e, ops[1..]);
      assert Ticks([ops[0]]) + Ticks(ops[1..]) == Ticks(ops);
      hide ConnInv, Step, Permitted, Ticks;
      OnwardTrans(c, e, Run(e, ops[1..]));
    }
  }

  lemma OnwardTrans(c: Connection, d: Connection, e: Connection)
    requires Onward(c, d) && Onward(d, e)
    ensures Onward(c, e)
  {
  }

  lemma NewConnectionInv(isn: U32, sendCapacity: nat, recvCapacity: nat, rto: nat)
    requires 0 < sendCapacity && 0 < recvCapacity
    ensures var c := NewConnection(isn, sendCapacity, recvCapacity, rto);
            && ConnInv(c) && c.active && c.linger && c.Listening() && c.rtTimeout == rto && c.sender.isn == isn
            && c.receiver.Window() == recvCapacity && c.sender.stream.Remaining() == sendCapacity
            && c.out == [] && c.sender.FreeWindow() == 1
  {
    NewSenderInv(isn, sendCapacity, rto);
    hide Inv;
  }
}
