/** The connection object. */
module TcpConnections {
  import opened Bytes
  import opened WrappingIntegers
  import opened Segments
  import opened Receiving
  import opened Sending
  import opened SenderInvariants
  import opened Connecting
  import opened ConnectionInvariants
  import opened ConnectionRuns
  import opened TcpReceivers
  import opened TcpSenders

  class TcpConnection {
    const rtTimeout: nat
    const receiver: TcpReceiver
    const sender: TcpSender
    var msSinceLastRecv: nat
    var segmentsOut: seq<TcpSegment>
    var active: bool
    var lingerAfterStreamFinish: bool
    var needSendRst: bool
    ghost var packetsOut: seq<Packet>  // the outbound queue with absolute numbers

    ghost function ReceiverParts(): set<object> {
      {receiver} + receiver.Parts()
    }

    ghost function SenderParts(): set<object> {
      {sender, sender.stream, sender.stream.buffer, sender.timer}
    }

    /** The parts are in order and apart from each other. */
    ghost predicate Held()
      reads this, ReceiverParts(), SenderParts()
    {
      && receiver.Valid() && sender.Valid()
      && ReceiverParts() !! SenderParts() && this !in ReceiverParts() && this !in SenderParts()
      && |packetsOut| == |segmentsOut|
      && forall i :: 0 <= i < |segmentsOut| ==> packetsOut[i].seg == segmentsOut[i]
    }

    ghost predicate Valid()
      reads this, ReceiverParts(), SenderParts()
    {
      Held() && ConnInv(Value())
    }

    ghost function Value(): Connection
      reads this, ReceiverParts(), SenderParts()
    {
      Connection(rtTimeout, receiver.Value(), sender.Value(), msSinceLastRecv, packetsOut, active,
                 lingerAfterStreamFinish, needSendRst)
    }

    constructor (rto: nat, recvCapacity: nat, sendCapacity: nat, fixedIsn: U32)
      requires 0 < recvCapacity < 0x1_0000_0000_0000_0000 && 0 < sendCapacity
      ensures Valid() && fresh(ReceiverParts()) && fresh(SenderParts())
      ensures Value() == NewConnection(fixedIsn, sendCapacity, recvCapacity, rto)
    {
      hide TcpReceiver.Valid, TcpReceiver.Value, TcpSender.Valid, TcpSender.Value, ConnInv;
      rtTimeout := rto;
      var r := new TcpReceiver(recvCapacity);
      var s := new TcpSender(sendCapacity, rto, fixedIsn);
      receiver, sender := r, s;
      msSinceLastRecv, segmentsOut, packetsOut := 0, [], [];
      active, lingerAfterStreamFinish, needSendRst := true, true, false;
      new;
      NewConnectionInv(fixedIsn, sendCapacity, recvCapacity, rto);
    }

    /** Moves the sender's segments to the outbound queue, stamped with the receiver's state. */
    method EnqueueSegments()
      requires Held()
      modifies this`segmentsOut, this`packetsOut, sender
      ensures Held()
      ensures Value() == Enqueue(old(Value()))
    {
      hide Inv, Stamp, StampAll;
      ghost var v := Value();
      while sender.segmentsOut != []
        invariant Held() && needSendRst == old(needSendRst)
        invariant Enqueue(Value()) == Enqueue(v)
        decreases |sender.segmentsOut|
      {
        if needSendRst {
          var seg := sender.segmentsOut[0];
          seg := seg.(header := seg.header.(rst := true));
          segmentsOut, packetsOut := segmentsOut + [seg], packetsOut + [AsReset(sender.packetsOut[0])];
          return;
        }
        EnqueueFront(Value());
        MoveFront();
      }
    }

    static lemma EnqueueFront(c: Connection)
      requires c.receiver.reasm.out.WellFormed() && (c.receiver.listening || c.receiver.isn.Some?)
      requires !c.needRst && c.sender.out != []
      ensures Enqueue(c) == Enqueue(c.(out := c.out + [Stamp(c.receiver, c.sender.out[0])],
                                       sender := c.sender.(out := c.sender.out[1..])))
    {
      hide Stamp;
      var q := Stamp(c.receiver, c.sender.out[0]);
      var rest := StampAll(c.receiver, c.sender.out[1..]);
      assert c.out + ([q] + rest) == c.out + [q] + rest;
    }

    /** Stamps the first of the sender's segments and moves it over. */
    method MoveFront()
      requires Held() && sender.segmentsOut != [] && !needSendRst
      modifies this`segmentsOut, this`packetsOut, sender`segmentsOut, sender`packetsOut
      ensures Held()
      ensures var c := old(Value());
              Value() == c.(out := c.out + [Stamp(c.receiver, c.sender.out[0])],
                            sender := c.sender.(out := c.sender.out[1..]))
    {
      hide Inv, Wrap;
      ghost var q := Stamp(receiver.Value(), sender.packetsOut[0]);
      var seg := sender.segmentsOut[0];
      if receiver.AckNo().Some? {
        seg := seg.(header := seg.header.(ack := true, ackno := receiver.AckNo().value,
        win := Min(receiver.WindowSize(), 65535)));
      }
      assert q.seg == seg;
      hide Stamp;
      segmentsOut, packetsOut := segmentsOut + [seg], packetsOut + [q];
      sender.PopOut();
    }

    method TryCleanShutdown()
      requires Held()
      modifies this`active
      ensures Held()
      ensures Value() == Connecting.TryCleanShutdown(old(Value()))
    {
      if (lingerAfterStreamFinish && receiver.State() == FinRecv && msSinceLastRecv >= 10 * rtTimeout) ||
         (!lingerAfterStreamFinish && sender.State() == FinAcked) {
        active := false;
      }
    }

    method UncleanShutdown()
      requires Held()
      modifies this, receiver.reassembler.output, sender.stream
      ensures Held()
      ensures Value() == Connecting.UncleanShutdown(old(Value()))
    {
      hide Inv;
      receiver.reassembler.output.SetError();
      sender.SetError();
      lingerAfterStreamFinish := false;
      active := false;
    }

    /** Gives the segment to both halves; if the peer closed first, there will be no lingering. */
    method Absorb(seg: TcpSegment)
      requires Held() && Value().WellFormed() && Value().Sound() && Receivable(Value().receiver, seg)
      modifies this, ReceiverParts(), SenderParts()
      ensures Held()
      ensures Value() == TakeIn(old(Value()), seg)
    {
      hide Inv, Receiving.SegmentReceived, AckReceived, Receivable;
      ghost var v := Value();
      receiver.SegmentReceived(seg);
      assert Held() && sender.Value() == v.sender;
      if seg.header.ack {
        sender.AckReceived(seg.header.ackno, seg.header.win);
      }
      assert Held() && receiver.Value() == Receiving.SegmentReceived(v.receiver, seg);
      hide NoteClose;
      NotePassiveClose();
    }

    method NotePassiveClose()
      requires Held()
      modifies this`active, this`lingerAfterStreamFinish
      ensures Held()
      ensures Value() == NoteClose(old(Value()))
    {
      hide Inv;
      if receiver.State() == FinRecv && sender.State() == SynAcked {
        lingerAfterStreamFinish := false;
        TryCleanShutdown();
      }
    }

    /** Sends what the window allows, and an empty segment if a reply is due and nothing else went out. */
    method Respond(seg: TcpSegment)
      requires Held() && !Value().sender.stream.error
      modifies this, SenderParts()
      ensures Held()
      ensures Value() == Reply(old(Value()), seg)
    {
      hide Inv, FillWindow, SendEmpty, ReplyDue, TcpReceiver.Valid, TcpReceiver.Value;
      ReplyReady(Value());
      Fill();
      if NeedsReply(seg) {
        ReplyEmpty();
      }
    }

    static lemma ReplyReady(c: Connection)
      requires Inv(c.sender)
      ensures c.sender.stream.WellFormed() && c.sender.lastAck <= c.sender.nextSeq
    {
    }

    /** The sender sends what the window allows, on its own queue. */
    method Fill()
      requires Held() && !Value().sender.stream.error
      modifies SenderParts()
      ensures Held()
      ensures Value() == old(Value()).(sender := FillWindow(old(sender.Value())))
    {
      hide LogValid, TimerValid, Genuine, FillWindow, TcpReceiver.Valid, TcpReceiver.Value;
      sender.FillWindow();
    }

    /** The sender adds an empty segment to its own queue if that is empty. */
    method ReplyEmpty()
      requires Held()
      modifies sender
      ensures Held()
      ensures Value() == old(Value()).(sender := SendEmpty(old(sender.Value())))
    {
      hide Inv, SendEmpty, TcpReceiver.Valid, TcpReceiver.Value;
      sender.SendEmptySegment();
    }

    /** The segment occupies sequence numbers, or is a keep-alive probe. */
    function NeedsReply(seg: TcpSegment): (due: bool)
      requires Held()
      reads this, ReceiverParts(), SenderParts()
      ensures due == ReplyDue(receiver.Value(), seg)
    {
      seg.Length() > 0 ||
      (receiver.State() == SynRecv && seg.header.seqno == Retreat(receiver.AckNo().value, 1))
    }

    /** Takes a segment in, answers it, and stops if all is done. */
    method HandleSegment(seg: TcpSegment)
      requires Held() && Value().WellFormed() && Value().Sound() && Receivable(Value().receiver, seg)
      modifies this, ReceiverParts(), SenderParts()
      ensures Held()
      ensures Value() == Handle(old(Value()), seg)
    {
      hide LogValid, TimerValid, Genuine, Receivable, TakeIn, Reply, Enqueue;
      TakeInReady(Value(), seg);
      Absorb(seg);
      Respond(seg);
      TryCleanShutdown();
      EnqueueSegments();
    }

    /** Called when a new segment has been received from the network. */
    method SegmentReceived(seg: TcpSegment)
      requires Valid() && Permitted(Value(), Segment(seg))
      modifies this, ReceiverParts(), SenderParts()
      ensures Valid()
      ensures Value() == Receive(old(Value()), seg)
    {
      hide LogValid, QueueValid, TimerValid, Genuine, Receivable, Handle;
      ghost var v := Value();
      StepMoves(v, Segment(seg));
      if receiver.State() == Listen && sender.State() == Closed {
        if !seg.header.syn || seg.header.ack || seg.header.rst {
          return;
        }
      }
      msSinceLastRecv := 0;
      if seg.header.rst {
        UncleanShutdown();
        return;
      }
      HandleSegment(seg);
    }

    /** Sends what the window allows. */
    method FillAndSend()
      requires Held() && !Value().sender.stream.error
      modifies this, SenderParts()
      ensures Held()
      ensures Value() == FillAndQueue(old(Value()))
    {
      hide Inv, FillWindow, Enqueue, TcpReceiver.Valid, TcpReceiver.Value;
      ReplyReady(Value());
      Fill();
      EnqueueSegments();
    }

    /** Writes to the outbound stream and sends what the window allows. */
    method Write(data: seq<Byte>) returns (writeSize: nat)
      requires Valid() && Permitted(Value(), ConnOp.WriteOp(data))
      modifies this, SenderParts()
      ensures Valid()
      ensures Value() == WriteData(old(Value()), data)
      ensures writeSize == Min(|data|, old(Value()).sender.stream.Remaining())
    {
      hide LogValid, TimerValid, Genuine, FillAndQueue, TcpReceiver.Valid;
      hide TcpReceiver.Value, TcpSender.Valid, TcpSender.Value;
      ghost var v := Value();
      writeSize := sender.Write(data);
      FillAndSend();
      StepMoves(v, ConnOp.WriteOp(data));
    }

    /** Resets both streams and says so to the peer. */
    method GiveUp()
      requires Held()
      modifies this, ReceiverParts(), SenderParts()
      ensures Held()
      ensures Value() == Connecting.GiveUp(old(Value()))
    {
      hide Inv, SendEmpty;
      UncleanShutdown();
      needSendRst := true;
      sender.SendEmptySegment();
    }

    method StopOrGoOn()
      requires Held()
      modifies this, ReceiverParts(), SenderParts()
      ensures Held()
      ensures Value() == AfterTick(old(Value()))
    {
      hide Inv, Connecting.GiveUp;
      if sender.retransmissionCount > MAX_RETX_ATTEMPTS {
        GiveUp();
      } else {
        TryCleanShutdown();
      }
    }

    method PassTime(ms: nat)
      requires Held()
      modifies this, sender, sender.timer
      ensures Held()
      ensures Elapse(old(Value()).sender, ms).timer.Expired() ==> old(Value()).sender.outstanding != []
      ensures var c := old(Value());
              Value() == c.(sinceRecv := c.sinceRecv + ms, sender := Sending.Tick(c.sender, ms))
    {
      hide Inv, Sending.Tick;
      msSinceLastRecv := msSinceLastRecv + ms;
      sender.Tick(ms);
    }

    /** Called periodically: passes the time on, gives up after too many retransmissions, or stops if all is done. */
    method Tick(msSinceLastTick: nat)
      requires Valid() && Permitted(Value(), TickOp(msSinceLastTick))
      modifies this, ReceiverParts(), SenderParts()
      ensures Valid()
      ensures Value() == TickBy(old(Value()), msSinceLastTick)
    {
      hide Inv, Enqueue, Sending.Tick, AfterTick, TcpReceiver.Valid;
      hide TcpReceiver.Value, TcpSender.Valid, TcpSender.Value;
      ghost var v := Value();
      PassTime(msSinceLastTick);
      StopOrGoOn();
      EnqueueSegments();
      StepMoves(v, TickOp(msSinceLastTick));
    }

    /** Shuts down the outbound stream. */
    method EndInputStream()
      requires Valid() && Permitted(Value(), ConnOp.EndOp)
      modifies this, SenderParts()
      ensures Valid()
      ensures Value() == Connecting.EndInputStream(old(Value()))
    {
      hide LogValid, TimerValid, Genuine, FillAndQueue, TcpReceiver.Valid;
      ghost var v := Value();
      sender.EndInput();
      FillAndSend();
      StepMoves(v, ConnOp.EndOp);
    }

    /** Initiates a connection by sending a SYN. */
    method Connect()
      requires Valid() && Permitted(Value(), ConnOp.Connect)
      modifies this, SenderParts()
      ensures Valid()
      ensures Value() == FillAndQueue(old(Value()))
    {
      hide LogValid, TimerValid, Genuine, FillAndQueue;
      ghost var v := Value();
      FillAndSend();
      StepMoves(v, ConnOp.Connect);
    }

    /** Reads from the inbound stream. */
    method ReadInbound(len: nat) returns (data: seq<Byte>)
      requires Valid()
      modifies receiver.reassembler.output
      ensures Valid()
      ensures Value() == old(Value()).(receiver := ReadBy(old(Value()).receiver, len))
      ensures data == old(Value()).receiver.reasm.out.Peek(len)
    {
      hide Inv;
      StepMoves(Value(), ConnOp.ReadOp(len));
      data := receiver.reassembler.output.Read(len);
    }

    /** Takes everything queued to go out. */
    method TakeSegments() returns (segs: seq<TcpSegment>)
      requires Valid()
      modifies this`segmentsOut, this`packetsOut
      ensures Valid()
      ensures Value() == old(Value()).(out := [])
      ensures segs == old(segmentsOut)
    {
      hide Inv;
      StepMoves(Value(), ConnOp.Flush);
      segs := segmentsOut;
      segmentsOut, packetsOut := [], [];
    }
  }
}
