/** A complete endpoint of a connection, as a value. */
module Connecting {
  import opened Bytes
  import opened WrappingIntegers
  import opened Segments
  import opened Receiving
  import opened Sending
  import opened SenderInvariants

  const MAX_RETX_ATTEMPTS: nat := 8

  datatype Connection = Connection(
    rtTimeout: nat, receiver: Receiver, sender: Sender, sinceRecv: nat,
    out: seq<Packet>, active: bool, linger: bool, needRst: bool)
  {
    /** The connection neither failed nor is about to say so. */
    predicate Sound() {
      !receiver.reasm.out.error && !sender.stream.error && !needRst
    }

    ghost predicate WellFormed() {
      receiver.WellFormed() && Inv(sender)
    }

    predicate Listening() {
      receiver.State().Listen? && sender.State().Closed?
    }
  }

  function NewConnection(isn: U32, sendCapacity: nat, recvCapacity: nat, rto: nat): Connection {
    Connection(rto, NewReceiver(recvCapacity), NewSender(isn, sendCapacity, rto), 0, [], true, true, false)
  }

  /** The receiver's present acknowledgement and window, put on a segment about to leave. */
  function Stamp(r: Receiver, p: Packet): Packet
    requires r.reasm.out.WellFormed() && (r.listening || r.isn.Some?)
  {
    match r.AckNo()
    case None => p
    case Some(ackno) =>
      p.(seg := p.seg.(header := p.seg.header.(ack := true, ackno := ackno, win := Min(r.Window(), 65535))),
         absAck := r.AbsAck())
  }

  function StampAll(r: Receiver, ps: seq<Packet>): (qs: seq<Packet>)
    requires r.reasm.out.WellFormed() && (r.listening || r.isn.Some?)
    ensures |qs| == |ps|
    ensures forall i :: 0 <= i < |ps| ==> qs[i] == Stamp(r, ps[i])
  {
    if ps == [] then [] else [Stamp(r, ps[0])] + StampAll(r, ps[1..])
  }

  function AsReset(p: Packet): Packet {
    p.(seg := p.seg.(header := p.seg.header.(rst := true)))
  }

  /** Moves the sender's segments out, stamped; or, on giving up, marks one as reset and leaves it queued. */
  function Enqueue(c: Connection): Connection
    requires c.receiver.reasm.out.WellFormed() && (c.receiver.listening || c.receiver.isn.Some?)
  {
    if c.sender.out == [] then c
    else if c.needRst then c.(out := c.out + [AsReset(c.sender.out[0])])
    else c.(out := c.out + StampAll(c.receiver, c.sender.out), sender := c.sender.(out := []))
  }

  predicate CleanStop(c: Connection) {
    || (c.linger && c.receiver.State().FinRecv? && c.sinceRecv >= 10 * c.rtTimeout)
    || (!c.linger && c.sender.State().FinAcked?)
  }

  function TryCleanShutdown(c: Connection): Connection {
    if CleanStop(c) then c.(active := false) else c
  }

  function UncleanShutdown(c: Connection): Connection {
    c.(receiver := c.receiver.(reasm := c.receiver.reasm.(out := c.receiver.reasm.out.SetError())),
    sender := c.sender.(stream := c.sender.stream.SetError()),
    linger := false, active := false)
  }

  /** Segments a listening connection does not react to. */
  predicate Ignored(c: Connection, seg: TcpSegment) {
    c.Listening() && (!seg.header.syn || seg.header.ack || seg.header.rst)
  }

  /** The peer has finished and this side has not: there is nobody to linger for. */
  function NoteClose(c: Connection): Connection {
    if c.receiver.State().FinRecv? && c.sender.State().SynAcked? then TryCleanShutdown(c.(linger := false)) else c
  }

  /** Both halves after taking a segment in; the peer closing first means no lingering. */
  ghost function TakeIn(c: Connection, seg: TcpSegment): Connection
    requires c.WellFormed() && c.Sound() && Receivable(c.receiver, seg)
  {
    var r := SegmentReceived(c.receiver, seg);
    var s := if seg.header.ack then AckReceived(c.sender, seg.header.ackno, seg.header.win) else c.sender;
    NoteClose(c.(receiver := r, sender := s))
  }

  /** A reply is due to anything that occupies sequence numbers, and to a keep-alive probe. */
  predicate ReplyDue(r: Receiver, seg: TcpSegment)
    requires r.listening || r.isn.Some?
  {
    seg.Length() > 0 || (r.State().SynRecv? && r.AckNo().Some? && seg.header.seqno == Retreat(r.AckNo().value, 1))
  }

  function Reply(c: Connection, seg: TcpSegment): Connection
    requires c.sender.stream.WellFormed() && c.sender.lastAck <= c.sender.nextSeq
    requires c.receiver.listening || c.receiver.isn.Some?
  {
    var c1 := c.(sender := FillWindow(c.sender));
    if ReplyDue(c1.receiver, seg) then c1.(sender := SendEmpty(c1.sender)) else c1
  }

  lemma TakeInReady(c: Connection, seg: TcpSegment)
    requires c.WellFormed() && c.Sound() && Receivable(c.receiver, seg)
    ensures var t := TakeIn(c, seg);
            && Inv(t.sender) && Advances(c.sender, t.sender) && !t.sender.stream.error
            && t.receiver.WellFormed()
            && t.out == c.out && t.rtTimeout == c.rtTimeout && !t.needRst && t.sender.out == c.sender.out
            && t.receiver == SegmentReceived(c.receiver, seg) && t.sinceRecv == c.sinceRecv
  {
    hide SegmentReceived, Unwrap, LogValid, QueueValid, TimerValid, Genuine;
    if seg.header.ack {
      AckReceivedInv(c.sender, seg.header.ackno, seg.header.win);
    }
    ReceiveKeeps(c.receiver, seg);
  }

  /** The usual case: take the segment in, answer it, and see whether all is done. */
  ghost function Handle(c: Connection, seg: TcpSegment): Connection
    requires c.WellFormed() && c.Sound() && Receivable(c.receiver, seg)
  {
    hide LogValid, TimerValid, Genuine, TakeIn;
    TakeInReady(c, seg);
    Enqueue(TryCleanShutdown(Reply(TakeIn(c, seg), seg)))
  }

  /** Segments on which no assertion stops the program. */
  predicate Acceptable(c: Connection, seg: TcpSegment) {
    Ignored(c, seg) || seg.header.rst || Receivable(c.receiver, seg)
  }

  ghost function Receive(c: Connection, seg: TcpSegment): Connection
    requires c.WellFormed() && c.Sound() && Acceptable(c, seg)
  {
    if Ignored(c, seg) then c
    else if seg.header.rst then UncleanShutdown(c.(sinceRecv := 0))
    else Handle(c.(sinceRecv := 0), seg)
  }

  /** All that `connect` does: from the closed state, filling the window sends the SYN. */
  function FillAndQueue(c: Connection): Connection
    requires c.sender.stream.WellFormed() && c.sender.lastAck <= c.sender.nextSeq
    requires c.receiver.reasm.out.WellFormed() && (c.receiver.listening || c.receiver.isn.Some?)
  {
    Enqueue(c.(sender := FillWindow(c.sender)))
  }

  /** Takes what fits of the data into the outbound stream and sends what the window allows. */
  function WriteData(c: Connection, data: seq<Byte>): Connection
    requires c.sender.stream.WellFormed() && c.sender.lastAck <= c.sender.nextSeq
    requires c.receiver.reasm.out.WellFormed() && (c.receiver.listening || c.receiver.isn.Some?)
  {
    FillAndQueue(c.(sender := c.sender.(stream := c.sender.stream.Write(data))))
  }

  function EndInputStream(c: Connection): Connection
    requires c.sender.stream.WellFormed() && c.sender.lastAck <= c.sender.nextSeq
    requires c.receiver.reasm.out.WellFormed() && (c.receiver.listening || c.receiver.isn.Some?)
  {
    FillAndQueue(c.(sender := c.sender.(stream := c.sender.stream.EndInput())))
  }

  /** Too many retransmissions in a row: both streams fail and the peer is told. */
  function GiveUp(c: Connection): Connection {
    var c1 := UncleanShutdown(c).(needRst := true);
    c1.(sender := SendEmpty(c1.sender))
  }

  function AfterTick(c: Connection): Connection {
    if c.sender.retx > MAX_RETX_ATTEMPTS then GiveUp(c) else TryCleanShutdown(c)
  }

  /** Time passes; after more than eight retransmissions in a row the connection gives up. */
  ghost function TickBy(c: Connection, ms: nat): Connection
    requires c.WellFormed() && c.Sound()
  {
    hide LogValid, TimerValid, Genuine, SendEmpty;
    TickInv(c.sender, ms);
    Enqueue(AfterTick(c.(sinceRecv := c.sinceRecv + ms, sender := Tick(c.sender, ms))))
  }
}
