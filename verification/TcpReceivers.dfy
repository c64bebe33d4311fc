/** The receiver object. */
module TcpReceivers {
  import opened Bytes
  import opened WrappingIntegers
  import opened Segments
  import opened Reassembly
  import opened StreamReassemblers
  import opened Receiving

  class TcpReceiver {
    const reassembler: StreamReassembler
    const capacity: nat
    var isn: Option<U32>
    var isListen: bool

    ghost function Parts(): set<object>
    {
      {reassembler, reassembler.buffer, reassembler.buffer.buffer, reassembler.output, reassembler.output.buffer}
    }

    ghost predicate Valid()
      reads this, Parts()
    {
      && reassembler.Valid()
      && capacity == reassembler.capacity
      && (isListen <==> isn.None?)
    }

    ghost function Value(): Receiver
      reads this, Parts()
    {
      Receiver(reassembler.Value(), isn, isListen)
    }

    constructor (capacity: nat)
      requires 0 < capacity < 0x1_0000_0000_0000_0000
      ensures Valid() && fresh(Parts())
      ensures Value() == NewReceiver(capacity)
    {
      reassembler := new StreamReassembler(capacity);
      this.capacity := capacity;
      isn := None;
      isListen := true;
    }

    method SegmentReceived(seg: TcpSegment)
      requires Valid() && Receivable(Value(), seg)
      modifies this, Parts()
      ensures Valid()
      ensures Value() == Receiving.SegmentReceived(old(Value()), seg)
    {
      hide Push, Unwrap, Advance, Aborts, Reassembler.WellFormed;
      if State() == Listen {
        if !seg.header.syn {
          return;
        }
        isListen := false;
        isn := Some(seg.header.seqno);
      }
      var absSeqNo := Unwrap(Advance(seg.header.seqno, if seg.header.syn then 1 else 0), isn.value, AbsAckNo());
      if absSeqNo > 0 {
        reassembler.PushSubstring(seg.payload, absSeqNo - 1, seg.header.fin);
      }
    }

    function AbsAckNo(): (n: nat)
      requires Valid()
      reads this, Parts()
      ensures n == Value().AbsAck()
    {
      if State() == SynRecv then reassembler.output.bytesWritten + 1
      else if State() == FinRecv then reassembler.output.bytesWritten + 2
      else 0
    }

    function AckNo(): (n: Option<U32>)
      requires Valid()
      reads this, Parts()
      ensures n == Value().AckNo()
    {
      if State() == Error || State() == Listen then None else Some(Wrap(AbsAckNo(), isn.value))
    }

    function WindowSize(): (n: nat)
      requires Valid()
      reads this, Parts()
      ensures n == Value().Window()
    {
      capacity - reassembler.output.usedSize
    }

    function State(): (s: ReceiverState)
      requires Valid()
      reads this, Parts()
      ensures s == Value().State()
    {
      if reassembler.output.hasError then Error
      else if isListen then Listen
      else if reassembler.output.inputEnded then FinRecv
      else SynRecv
    }
  }
}
