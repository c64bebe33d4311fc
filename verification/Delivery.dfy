/** Nothing is sent where there is no room, nothing received is lost, and what has all been received is delivered. */
module Delivery {
  import opened WrappingIntegers
  import opened Segments
  import opened Reassembly
  import opened Receiving
  import opened Sending
  import opened SenderInvariants
  import opened Connecting
  import opened ConnectionInvariants
  import opened Links
  import opened Duplex
  import opened Transmission
  import opened Network

  // ---- where segments go when they are sent ----

  lemma GiveUpSent(c: Connection)
    ensures GiveUp(c).sender.sent == c.sender.sent && GiveUp(c).receiver == UncleanShutdown(c).receiver
  {
    hide Wrap;
  }

  lemma TickSent(c: Connection, ms: nat)
    requires c.WellFormed() && c.Sound()
    ensures TickBy(c, ms).sender.sent == c.sender.sent
  {
    hide LogValid, QueueValid, TimerValid, Genuine, Tick, Enqueue, GiveUp;
    TickInv(c.sender, ms);
    var c1 := c.(sinceRecv := c.sinceRecv + ms, sender := Tick(c.sender, ms));
    GiveUpSent(c1);
    EnqueueKeepsSent(AfterTick(c1));
  }

  lemma FillAims(a: Connection, s: Sender, b: Connection, wa: set<Packet>, wb: set<Packet>, k: nat)
    requires Linked(a, b, wa, wb) && a.WellFormed() && a.Sound()
    requires Inv(s) && Advances(a.sender, s) && s.sent == a.sender.sent && !s.stream.error
    requires s.lastAck == a.sender.lastAck && s.window == a.sender.window
    requires |s.sent| <= k < |FillAndQueue(a.(sender := s)).sender.sent|
    ensures Aimed(FillAndQueue(a.(sender := s)).sender.sent[k], b.receiver)
  {
    hide LogValid, TimerValid, Genuine, Faithful, InStep, FlowValid, AcksValid, FillWindow, Enqueue, Advances, Aimed;
    QuietMove(a.sender, s, b.receiver, wa, wb);
    FillWindowInv(s);
    EnqueueKeepsSent(a.(sender := FillWindow(s)));
    FillWindowAims(s, b.receiver, wa, wb, k);
  }

  /** Whatever happens, each segment sent for the first time goes into the peer's room as it is at that moment, or is
      one number sent into a shut window exactly where the peer expects it. */
  lemma NewSegmentsAimed(w: World, e: Event, k: nat)
    requires Good(w) && Can(w, e) && |w.a.sender.sent| <= k < |Next(w, e).a.sender.sent|
    ensures Aimed(Next(w, e).a.sender.sent[k], w.b.receiver)
  {
    var wa, wb := Elements(w.a.out) + w.ab, Elements(w.b.out) + w.ba;
    hide LogValid, TimerValid, Genuine, Link, FillAndQueue, TickBy, Receive, Aimed, Receivable;
    match e
    case Call(op) => CallAims(w.a, op, w.b, wa, wb, k);
    case Send =>
    case Drop(_) =>
    case Arrive(p) =>
      ArrivalPermitted(w, p);
      ArrivalAims(w.a, p, w.b, wa, wb, k);
  }

  lemma CallAims(a: Connection, op: ConnOp, b: Connection, wa: set<Packet>, wb: set<Packet>, k: nat)
    requires ConnInv(a) && Permitted(a, op) && !op.Segment? && !op.Flush? && Linked(a, b, wa, wb)
    requires |a.sender.sent| <= k < |Step(a, op).sender.sent|
    ensures Aimed(Step(a, op).sender.sent[k], b.receiver)
  {
    hide LogValid, TimerValid, Genuine, Link, FillAndQueue, TickBy, Aimed;
    match op
    case Connect =>
      SelfAdvances(a.sender);
      FillAims(a, a.sender, b, wa, wb, k);
    case WriteOp(data) =>
      WriteInv(a.sender, data);
      FillAims(a, a.sender.(stream := a.sender.stream.Write(data)), b, wa, wb, k);
    case EndOp =>
      EndInputInv(a.sender);
      FillAims(a, a.sender.(stream := a.sender.stream.EndInput()), b, wa, wb, k);
    case TickOp(ms) => TickSent(a, ms);
    case ReadOp(len) =>
  }

  lemma ArrivalAims(a: Connection, p: Packet, b: Connection, wa: set<Packet>, wb: set<Packet>, k: nat)
    requires ConnInv(a) && a.active && Linked(a, b, wa, wb) && p in wb && FreshFor(a, p) && Acceptable(a, p.seg)
    requires |a.sender.sent| <= k < |Receive(a, p.seg).sender.sent|
    ensures Aimed(Receive(a, p.seg).sender.sent[k], b.receiver)
  {
    hide LogValid, QueueValid, TimerValid, Genuine, Link, Handle, TakeIn;
    hide FillWindow, Aimed, Ignored, SegmentReceived, Fits;
    var a1 := a.(sinceRecv := 0);
    if !Ignored(a, p.seg) && !p.seg.header.rst {
      HandledParts(a1, p.seg);
      TakeInReady(a1, p.seg);
      TakeInSent(a1, p.seg);
      TakeInLinked(a1, p, b, wa, wb);
      FillWindowAims(TakeIn(a1, p.seg).sender, b.receiver, wa, wb, k);
    }
  }

  // ---- completeness ----

  /** What a segment does to the receiver of a connection. */
  lemma ReceivedBy(c: Connection, seg: TcpSegment)
    requires c.WellFormed() && c.Sound() && Acceptable(c, seg)
    ensures Receive(c, seg).receiver ==
            if Ignored(c, seg) then c.receiver
            else if seg.header.rst then c.receiver.(reasm := c.receiver.reasm.(out := c.receiver.reasm.out.SetError()))
            else SegmentReceived(c.receiver, seg)
  {
    hide LogValid, TimerValid, Genuine, FillWindow, SendEmpty, StampAll, SegmentReceived, Ignored;
    if !Ignored(c, seg) && !seg.header.rst {
      TakeInReady(c.(sinceRecv := 0), seg);
    }
  }

  /** A packet that arrives whole within the room of a receiver that is open, or that opens it, has been received. */
  lemma ArrivalGot(w: World, p: Packet)
    requires Good(w) && Can(w, Arrive(p)) && !Ignored(w.a, p.seg) && !p.seg.header.rst
    requires !w.a.receiver.listening || p.seg.header.syn
    requires p.abs - 1 + |p.seg.payload| <= w.a.receiver.reasm.Limit()
    ensures Got(p, Next(w, Arrive(p)).a.receiver)
  {
    var wa, wb := Elements(w.a.out) + w.ab, Elements(w.b.out) + w.ba;
    hide LogValid, QueueValid, TimerValid, Faithful, InStep, AcksValid;
    hide KeepsToWindow, Ignored, Receive, SegmentReceived;
    ArrivalPermitted(w, p);
    ReceivedBy(w.a, p.seg);
    if w.a.receiver.listening {
      assert Genuine(p, w.b.sender);
      OpenedBySyn(w.a.receiver, p.seg);
    } else {
      DeliverExact(p, w.b.sender, w.a.receiver, wb, wa);
    }
  }

  lemma OpenedBySyn(r: Receiver, seg: TcpSegment)
    requires r.WellFormed() && r.State().Listen? && seg.header.syn && Receivable(r, seg)
    ensures !SegmentReceived(r, seg).listening
  {
    hide Push, Unwrap;
  }

  lemma GotStaysHere(w: World, e: Event, q: Packet)
    requires Good(w) && Can(w, e) && Got(q, w.a.receiver)
    ensures Got(q, Next(w, e).a.receiver)
  {
    hide LogValid, TimerValid, Genuine, QueueValid, Faithful, InStep, FlowValid, AcksValid, KeepsToWindow;
    match e
    case Call(op) => CallKeepsGot(w.a, op, q);
    case Send =>
    case Drop(_) =>
    case Arrive(p) =>
      ArrivalPermitted(w, p);
      ArrivalKeepsGot(w, p, q);
  }

  /** What has been received stays received, whatever happens next at either endpoint. */
  lemma GotStays(w: World, first: bool, e: Event, q: Packet)
    requires Good(w) && CanAt(w, first, e) && Got(q, w.a.receiver)
    ensures Got(q, NextAt(w, first, e).a.receiver)
  {
    hide Good, Can, Got;
    SwapGood(w);
    if first {
      hide Next;
      GotStaysHere(w, e, q);
    }
  }

  /** And over any run. */
  lemma {:induction false} GotForever(w: World, es: seq<(bool, Event)>, q: Packet)
    requires Good(w) && CanRun(w, es) && Got(q, w.a.receiver)
    ensures Got(q, Network.Run(w, es).a.receiver)
    decreases |es|
  {
    hide Good, CanAt, NextAt, Got;
    if es != [] {
      NextAtGood(w, es[0].0, es[0].1);
      GotStays(w, es[0].0, es[0].1, q);
      GotForever(NextAt(w, es[0].0, es[0].1), es[1..], q);
    }
  }

  lemma ArrivalKeepsGot(w: World, p: Packet, q: Packet)
    requires Good(w) && Can(w, Arrive(p)) && Acceptable(w.a, p.seg) && Got(q, w.a.receiver)
    ensures Got(q, Receive(w.a, p.seg).receiver)
  {
    var wa, wb := Elements(w.a.out) + w.ab, Elements(w.b.out) + w.ba;
    hide LogValid, QueueValid, TimerValid, Genuine, InStep, FlowValid;
    hide AcksValid, KeepsToWindow, Ignored, Receive, SegmentReceived;
    ReceivedBy(w.a, p.seg);
    if Ignored(w.a, p.seg) {
    } else if p.seg.header.rst {
      SameGot(q, w.a.receiver, Receive(w.a, p.seg).receiver);
    } else if w.a.receiver.listening {
      GotWhileListening(q, w.a.receiver, p.seg);
    } else {
      DeliverExact(p, w.b.sender, w.a.receiver, wb, wa);
    }
  }

  lemma GotWhileListening(q: Packet, r: Receiver, seg: TcpSegment)
    requires r.WellFormed() && r.listening && !r.reasm.out.error && Got(q, r) && Receivable(r, seg)
    requires r.reasm.Next() == 0 && r.reasm.held == {} && r.reasm.eof.None?
    ensures Got(q, SegmentReceived(r, seg))
  {
    hide Push, Unwrap;
  }

  lemma SameGot(q: Packet, r: Receiver, t: Receiver)
    requires Got(q, r) && SameHeld(r, t)
    ensures Got(q, t)
  {
    assert forall i: nat :: t.reasm.Has(i) == r.reasm.Has(i);
  }

  /** Calls of the owner leave what has been received as it is. */
  predicate SameHeld(r: Receiver, t: Receiver) {
    && t.listening == r.listening && t.reasm.eof == r.reasm.eof
    && t.reasm.held == r.reasm.held && t.reasm.out.written == r.reasm.out.written
  }

  lemma CallKeepsGot(a: Connection, op: ConnOp, q: Packet)
    requires ConnInv(a) && Permitted(a, op) && !op.Segment? && !op.Flush? && Got(q, a.receiver)
    ensures Got(q, Step(a, op).receiver)
  {
    hide LogValid, TimerValid, Genuine, Got, FillAndQueue, TickBy;
    match op {
      case Connect => FillKeepsHeld(a, a.sender);
      case WriteOp(data) =>
        WriteInv(a.sender, data);
        FillKeepsHeld(a, a.sender.(stream := a.sender.stream.Write(data)));
      case EndOp =>
        EndInputInv(a.sender);
        FillKeepsHeld(a, a.sender.(stream := a.sender.stream.EndInput()));
      case TickOp(ms) => TickKeepsHeld(a, ms);
      case ReadOp(len) =>
    }
    SameGot(q, a.receiver, Step(a, op).receiver);
  }

  lemma FillKeepsHeld(a: Connection, s: Sender)
    requires a.WellFormed() && Inv(s)
    ensures FillAndQueue(a.(sender := s)).receiver == a.receiver
  {
    hide LogValid, TimerValid, Genuine, FillWindow, StampAll;
  }

  lemma TickKeepsHeld(a: Connection, ms: nat)
    requires a.WellFormed() && a.Sound()
    ensures SameHeld(a.receiver, TickBy(a, ms).receiver)
  {
    hide LogValid, QueueValid, TimerValid, Genuine, Tick, StampAll, SendEmpty;
    TickInv(a.sender, ms);
  }

  /** If every segment one side ever sent has been received by the other, then everything it sent has been
      delivered: the whole stream, ended, once its FIN is among them. */
  lemma AllDelivered(w: World)
    requires Good(w) && forall p :: p in w.b.sender.sent ==> Got(p, w.a.receiver)
    ensures w.a.receiver.Progress() == w.b.sender.nextSeq
    ensures FinSentBy(w.b.sender) ==>
              w.a.receiver.reasm.out.ended && w.a.receiver.reasm.out.written == w.b.sender.stream.written
  {
    hide ConnInv, Link;
    AllGot(w.b.sender, w.a.receiver, Elements(w.b.out) + w.ba, Elements(w.a.out) + w.ab);
  }
}
