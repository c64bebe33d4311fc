/** What the owner of a connection puts in and takes out, call by call. */
module Owners {
  import opened Bytes
  import opened WrappingIntegers
  import opened Segments
  import opened Reassembly
  import opened Receiving
  import opened Sending
  import opened SenderInvariants
  import opened Connecting
  import opened ConnectionInvariants
  import opened Transmission

  /** The part of the data a write takes: as much from its front as the outbound stream has room for. */
  function Said(c: Connection, op: ConnOp): seq<Byte>
    requires c.sender.stream.WellFormed()
  {
    var s := c.sender.stream;
    if op.WriteOp? then op.data[..Min(|op.data|, s.capacity - (|s.written| - s.read))] else []
  }

  /** The bytes a read hands out: the first ones not yet read. */
  function Heard(c: Connection, op: ConnOp): seq<Byte>
    requires c.receiver.reasm.out.WellFormed()
  {
    var r := c.receiver.reasm.out;
    if op.ReadOp? then r.written[r.read..r.read + Min(op.len, |r.written| - r.read)] else []
  }

  /** The outbound stream grew by `said` and ended if it was `closed`; the inbound one may have grown, and `heard` was
      taken from it. */
  predicate Owned(c: Connection, d: Connection, said: seq<Byte>, closed: bool, heard: nat) {
    && d.sender.stream.written == c.sender.stream.written + said
    && (d.sender.stream.ended <==> c.sender.stream.ended || closed)
    && c.receiver.reasm.out.written <= d.receiver.reasm.out.written
    && (c.receiver.reasm.out.ended ==> d.receiver.reasm.out.ended)
    && d.receiver.reasm.out.read == c.receiver.reasm.out.read + heard
  }

  lemma ReceiveGrows(r: Receiver, seg: TcpSegment)
    requires r.WellFormed() && Receivable(r, seg)
    ensures var q := SegmentReceived(r, seg).reasm.out;
            && r.reasm.out.written <= q.written && (r.reasm.out.ended ==> q.ended)
            && q.read == r.reasm.out.read
  {
    hide Unwrap, Push;
    var r1 := Opened(r, seg);
    if r1.isn.Some? && DataStart(r1, seg) > 0 {
      PushContinues(r1.reasm, seg.payload, DataStart(r1, seg) - 1, seg.header.fin);
    }
  }

  lemma RefillKeeps(c: Connection, seg: TcpSegment)
    requires c.WellFormed() && c.Sound() && Receivable(c.receiver, seg)
    ensures Refilled(c, seg).stream == c.sender.stream.(read := Refilled(c, seg).stream.read)
  {
    hide LogValid, QueueValid, TimerValid, Genuine, FillWindow, Unwrap, SegmentReceived;
    TakeInReady(c, seg);
    if seg.header.ack {
      AckReceivedInv(c.sender, seg.header.ackno, seg.header.win);
    }
    FilledSender(TakeIn(c, seg).sender);
  }

  lemma SegmentOwned(c: Connection, seg: TcpSegment)
    requires ConnInv(c) && c.active && Acceptable(c, seg)
    ensures Owned(c, Receive(c, seg), [], false, 0)
  {
    hide LogValid, QueueValid, TimerValid, Genuine, Handle, SegmentReceived, Refilled, Ignored, Receivable;
    if !Ignored(c, seg) && !seg.header.rst {
      var c1 := c.(sinceRecv := 0);
      HandledParts(c1, seg);
      RefillKeeps(c1, seg);
      ReceiveGrows(c.receiver, seg);
    }
  }

  lemma TickOwned(c: Connection, ms: nat)
    requires c.WellFormed() && c.Sound()
    ensures Owned(c, TickBy(c, ms), [], false, 0)
  {
    hide LogValid, QueueValid, TimerValid, Genuine, Tick, Enqueue, Wrap;
    TickInv(c.sender, ms);
    EnqueueKeepsSent(AfterTick(c.(sinceRecv := c.sinceRecv + ms, sender := Tick(c.sender, ms))));
  }

  lemma FillOwned(c: Connection, s: Sender)
    requires c.WellFormed() && c.Sound() && Inv(s) && !s.stream.error
    ensures var d := FillAndQueue(c.(sender := s));
            d.sender.stream == s.stream.(read := d.sender.stream.read) && d.receiver == c.receiver
  {
    hide LogValid, TimerValid, Genuine, FillWindow, Enqueue;
    FilledSender(s);
    EnqueueKeepsSent(c.(sender := FillWindow(s)));
  }

  /** Writing puts into the outbound stream what there is room for of the data, from its front and in order; ending it
      marks the end; reading takes from the inbound one; and no other call, whatever arrives, writes to the outbound
      stream, ends it, or takes anything from the inbound one. */
  lemma StepOwned(c: Connection, op: ConnOp)
    requires ConnInv(c) && Permitted(c, op)
    ensures Owned(c, ConnectionInvariants.Step(c, op), Said(c, op), op.EndOp?, |Heard(c, op)|)
  {
    hide LogValid, QueueValid, TimerValid, Genuine, Receive, FillAndQueue, TickBy, Acceptable;
    match op
    case Segment(seg) => SegmentOwned(c, seg);
    case Connect => FillOwned(c, c.sender);
    case WriteOp(data) =>
      WriteInv(c.sender, data);
      FillOwned(c, c.sender.(stream := c.sender.stream.Write(data)));
    case EndOp =>
      EndInputInv(c.sender);
      FillOwned(c, c.sender.(stream := c.sender.stream.EndInput()));
    case TickOp(ms) => TickOwned(c, ms);
    case ReadOp(len) =>
    case Flush =>
  }
}
