/** The retransmission timer and sender objects. */
module TcpSenders {
  import opened Bytes
  import opened WrappingIntegers
  import opened Segments
  import opened ByteStreams
  import opened Sending
  import opened SenderInvariants

  class Timer {
    var timeoutMs: nat
    var elapsedMs: nat
    var started: bool

    ghost function Value(): TimerValue
      reads this
    {
      TimerValue(timeoutMs, elapsedMs, started)
    }

    constructor (timeout: nat)
      ensures Value() == TimerValue(timeout, 0, false)
    {
      timeoutMs, elapsedMs, started := timeout, 0, false;
    }

    method Restart()
      modifies this
      ensures Value() == old(Value()).Restart()
    {
      Reset();
      started := true;
    }

    method Reset()
      modifies this
      ensures Value() == old(Value()).Reset()
    {
      elapsedMs := 0;
      started := false;
    }

    method ResetTo(timeout: nat)
      modifies this
      ensures Value() == old(Value()).ResetTo(timeout)
    {
      timeoutMs := timeout;
      Reset();
    }

    method Tick(msSinceLastTick: nat)
      modifies this
      ensures Value() == old(Value()).Tick(msSinceLastTick)
    {
      if started {
        elapsedMs := elapsedMs + msSinceLastTick;
      }
    }

    predicate Expired()
      reads this
      ensures Expired() == Value().Expired()
    {
      started && elapsedMs >= timeoutMs
    }
  }

  class TcpSender {
    const isn: U32
    const initRetransmissionTimeout: nat
    const stream: ByteStream
    const timer: Timer
    var segmentsOut: seq<TcpSegment>
    var outstandingSegments: seq<TcpSegment>
    var retransmissionCount: nat
    var nextSeqNo: nat
    var lastAckNo: nat
    var bytesInFlight: nat
    var windowSize: nat
    ghost var packetsOut: seq<Packet>  // the outbound queue with absolute numbers
    ghost var sent: seq<Packet>        // every first transmission
    ghost var quiet: nat               // time since new data was acknowledged or the timer started

    /** The fields agree with their history. */
    ghost predicate Linked()
      reads this, stream, stream.buffer
    {
      && stream.Valid()
      && |packetsOut| == |segmentsOut|
      && forall i :: 0 <= i < |segmentsOut| ==> packetsOut[i].seg == segmentsOut[i]
    }

    ghost predicate Valid()
      reads this, stream, stream.buffer, timer
    {
      Linked() && Inv(Value())
    }

    ghost function Value(): Sender
      reads this, stream, timer
    {
      Sender(isn, initRetransmissionTimeout, stream.Value(), timer.Value(), retransmissionCount, nextSeqNo, lastAckNo,
             bytesInFlight, windowSize, packetsOut, outstandingSegments, sent, quiet)
    }

    constructor (capacity: nat, retxTimeout: nat, fixedIsn: U32)
      requires 0 < capacity
      ensures Valid() && fresh(stream) && fresh(stream.buffer) && fresh(timer)
      ensures Value() == NewSender(fixedIsn, capacity, retxTimeout)
    {
      isn := fixedIsn;
      initRetransmissionTimeout := retxTimeout;
      stream := new ByteStream(capacity);
      timer := new Timer(retxTimeout);
      segmentsOut, outstandingSegments := [], [];
      retransmissionCount, nextSeqNo, lastAckNo, bytesInFlight, windowSize := 0, 0, 0, 0, 1;
      packetsOut, sent, quiet := [], [], 0;
      new;
      NewSenderInv(fixedIsn, capacity, retxTimeout);
    }

    function State(): (s: SenderState)
      requires Linked()
      reads this, stream, stream.buffer, timer
      ensures s == Value().State()
    {
      if stream.hasError then Failed
      else if nextSeqNo == 0 then Closed
      else if nextSeqNo == bytesInFlight then SynSent
      else if !stream.IsEof() || nextSeqNo < stream.bytesWritten + 2 then SynAcked
      else if bytesInFlight != 0 then FinSent
      else FinAcked
    }

    function FreeWindowSize(): (n: nat)
      requires lastAckNo <= nextSeqNo
      reads this, stream, timer
      ensures n == Value().FreeWindow()
    {
      if windowSize == 0 && nextSeqNo == lastAckNo then 1
      else if windowSize <= nextSeqNo - lastAckNo then 0
      else windowSize - (nextSeqNo - lastAckNo)
    }

    method SendSegment(seg: TcpSegment)
      requires Linked()
      modifies this, timer
      ensures Linked()
      ensures Value() == Sending.SendSegment(old(Value()), seg)
    {
      ghost var p := Packet(seg, nextSeqNo, 0);
      var segLength := seg.Length();
      nextSeqNo := nextSeqNo + segLength;
      bytesInFlight := bytesInFlight + segLength;
      segmentsOut, packetsOut := segmentsOut + [seg], packetsOut + [p];
      outstandingSegments, sent := outstandingSegments + [seg], sent + [p];
      if !timer.started {
        timer.Restart();
        quiet := 0;
      }
    }

    method FillWindow()
      requires Valid() && !Value().stream.error
      modifies this, stream, timer
      ensures Valid()
      ensures Value() == Sending.FillWindow(old(Value()))
    {
      hide LogValid, TimerValid, Genuine, FillStep, Filled;
      ghost var v := Value();
      FillWindowInv(v);
      if State() == Closed {
        SendSegment(SynSegment(isn));
        return;
      }
      while true
        invariant Linked()
        invariant lastAckNo <= nextSeqNo
        invariant FillLoop(Value()) == FillLoop(v)
        decreases Value().FreeWindow()
      {
        var freeWindow := FreeWindowSize();
        if freeWindow == 0 {
          return;
        }
        var streamSize := stream.usedSize;
        var needSendFin := stream.inputEnded && State() == SynAcked;
        if streamSize == 0 && !needSendFin {
          return;
        }
        FillStepProgress(Value());
        SendNext(freeWindow, needSendFin);
      }
    }

    /** One pass of the loop: takes what fits from the stream and sends it, with FIN if it is the end. */
    method SendNext(freeWindow: nat, needSendFin: bool)
      requires Linked() && lastAckNo <= nextSeqNo
      requires freeWindow == FreeWindowSize() && needSendFin == Value().NeedsFin()
      modifies this, stream, timer
      ensures Linked()
      ensures Value() == FillStep(old(Value()))
    {
      hide Wrap;
      var sendSize := Min(Min(stream.usedSize, freeWindow), MAX_PAYLOAD_SIZE);
      var seqno := Wrap(nextSeqNo, isn);
      var payload := stream.Read(sendSize);
      var fin := stream.IsEof() && freeWindow > sendSize && needSendFin;
      SendSegment(DataSegment(seqno, payload, fin));
    }

    method AckReceived(ackno: U32, window: U16)
      requires Valid()
      modifies this, timer
      ensures Valid()
      ensures Value() == Sending.AckReceived(old(Value()), ackno, window)
    {
      hide Unwrap, LogValid, TimerValid, Genuine, PopAcked;
      ghost var v := Value();
      AckReceivedInv(v, ackno, window);
      var absAckNo := Unwrap(ackno, isn, lastAckNo);
      if absAckNo <= lastAckNo || absAckNo > nextSeqNo {
        if absAckNo == lastAckNo {
          windowSize := window;
        }
        return;
      }
      assert LogValid(v) && QueueAt(v, absAckNo) by {
        FrontLength(v);
      }
      timer.ResetTo(initRetransmissionTimeout);
      retransmissionCount := 0;
      quiet := 0;
      SameLog(v, Value());
      PopAcknowledged(absAckNo);
      windowSize := window;
      lastAckNo := absAckNo;
    }

    /** Drops the fully acknowledged segments from the front of the queue. */
    method PopAcknowledged(absAckNo: nat)
      requires Linked() && LogValid(Value()) && QueueAt(Value(), absAckNo)
      modifies this`bytesInFlight, this`outstandingSegments, timer
      ensures Linked()
      ensures Value() == PopAcked(old(Value()), absAckNo)
    {
      hide Unwrap, LogValid, QueueAt;
      ghost var v := Value();
      while |outstandingSegments| > 0
        invariant Linked() && LogValid(Value()) && QueueAt(Value(), absAckNo)
        invariant PopAcked(Value(), absAckNo) == PopAcked(v, absAckNo)
        invariant timer.Value() == v.timer
        decreases |outstandingSegments|
      {
        ghost var before := Value();
        FrontRecovered(before, absAckNo);
        var seg := outstandingSegments[0];
        var absSeqNo := Unwrap(seg.header.seqno, isn, lastAckNo);
        if absSeqNo + seg.Length() > absAckNo {
          timer.Restart();
          break;
        }
        QueueBounds(before, absAckNo);
        bytesInFlight := bytesInFlight - seg.Length();
        outstandingSegments := outstandingSegments[1..];
        PopKeepsQueue(before, absAckNo, Value());
        SameLog(before, Value());
      }
    }

    static lemma QueueBounds(s: Sender, absAck: nat)
      requires QueueAt(s, absAck)
      ensures s.inFlight == s.nextSeq - s.Front() && s.Front() <= absAck <= s.nextSeq
    {
    }

    method Tick(msSinceLastTick: nat)
      requires Valid()
      modifies this, timer
      ensures Valid()
      ensures Elapse(old(Value()), msSinceLastTick).timer.Expired() ==> old(Value()).outstanding != []
      ensures Value() == Sending.Tick(old(Value()), msSinceLastTick)
    {
      hide LogValid, TimerValid, Genuine, QueueValid;
      ghost var v := Value();
      TickInv(v, msSinceLastTick);
      quiet := if timer.started then quiet + msSinceLastTick else quiet;
      timer.Tick(msSinceLastTick);
      assert Value() == Elapse(v, msSinceLastTick);
      if !timer.Expired() {
        return;
      }
      assert |outstandingSegments| > 0;
      ghost var p := Packet(outstandingSegments[0], Value().Front(), 0);
      segmentsOut, packetsOut := segmentsOut + [outstandingSegments[0]], packetsOut + [p];
      if windowSize > 0 {
        retransmissionCount := retransmissionCount + 1;
        var rto := timer.timeoutMs;
        timer.ResetTo(rto * 2);
      }
      timer.Restart();
    }

    method SendEmptySegment()
      requires Valid()
      modifies this
      ensures Valid()
      ensures Value() == SendEmpty(old(Value()))
    {
      hide LogValid, TimerValid, Genuine, QueueValid, Wrap;
      SendEmptyInv(Value());
      if segmentsOut == [] {
        var seg := DataSegment(Wrap(nextSeqNo, isn), [], false);
        packetsOut := [Packet(seg, nextSeqNo, 0)];
        segmentsOut := [seg];
      }
    }

    /** The connection takes the first segment off the outbound queue. */
    method PopOut()
      requires Valid() && segmentsOut != []
      modifies this`segmentsOut, this`packetsOut
      ensures Valid()
      ensures Value() == old(Value()).(out := old(Value()).out[1..])
    {
      hide LogValid, TimerValid, Genuine, QueueValid;
      ghost var v := Value();
      DrainInv(v, v.out[1..], v.stream.error);
      segmentsOut, packetsOut := segmentsOut[1..], packetsOut[1..];
    }

    method Write(data: seq<Byte>) returns (n: nat)
      requires Valid() && !Value().stream.ended
      modifies stream, stream.buffer
      ensures Valid()
      ensures Value() == old(Value()).(stream := old(Value()).stream.Write(data))
      ensures n == |Value().stream.written| - |old(Value()).stream.written|
    {
      hide LogValid, TimerValid, Genuine, QueueValid;
      WriteInv(Value(), data);
      n := stream.Write(data);
    }

    method EndInput()
      requires Valid()
      modifies stream
      ensures Valid()
      ensures Value() == old(Value()).(stream := old(Value()).stream.EndInput())
    {
      hide LogValid, TimerValid, Genuine, QueueValid;
      EndInputInv(Value());
      stream.EndInput();
    }

    method SetError()
      requires Valid()
      modifies stream
      ensures Valid()
      ensures Value() == old(Value()).(stream := old(Value()).stream.SetError())
    {
      hide LogValid, TimerValid, Genuine, QueueValid;
      ghost var v := Value();
      DrainInv(v, v.out, true);
      stream.SetError();
    }
  }
}
