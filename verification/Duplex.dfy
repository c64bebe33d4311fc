/** Two connections over a network that loses, repeats and reorders whatever is sent. */
module Duplex {
  import opened Bytes
  import opened WrappingIntegers
  import opened Segments
  import opened Receiving
  import opened Sending
  import opened SenderInvariants
  import opened Connecting
  import opened ConnectionInvariants
  import opened Links

  function Elements(ps: seq<Packet>): set<Packet> {
    set p | p in ps
  }

  /** Both directions are in order, for everything on the way and everything queued to go. */
  ghost predicate Linked(a: Connection, b: Connection, wa: set<Packet>, wb: set<Packet>) {
    Link(a.sender, b.receiver, wa, wb) && Link(b.sender, a.receiver, wb, wa)
  }

  /** Both directions are in order after `a` became `d` and its new segments went on the way. */
  ghost predicate LinkedAfter(a: Connection, d: Connection, b: Connection, wa: set<Packet>, wb: set<Packet>) {
    a.out <= d.out && Linked(d, b, wa + Elements(d.out[|a.out|..]), wb)
  }

  /** What the sender has queued but not yet handed on fits the peer. */
  ghost predicate OutFits(a: Connection, b: Connection) {
    forall p :: p in a.sender.out ==> Fits(p, b.receiver)
  }

  lemma StampKeeps(r: Receiver, p: Packet, s: Sender, q: Receiver)
    requires r.reasm.out.WellFormed() && (r.listening || r.isn.Some?)
    requires Queued(p, s) && Fits(p, q)
    ensures var st := Stamp(r, p);
            && Genuine(st, s) && Fits(st, q)
            && (st.seg.header.ack ==> !r.listening && !r.reasm.out.error && st.absAck == r.AbsAck()
                                      && r.AckNo() == Some(st.seg.header.ackno) && st.seg.header.win <= r.Window())
  {
    hide Wrap;
    var st := Stamp(r, p);
    assert st.seg.payload == p.seg.payload && st.abs == p.abs;
    assert CarriesSlice(p, s.stream.written, s.stream.ended) ==> CarriesSlice(st, s.stream.written, s.stream.ended);
  }

  lemma StampAllKeeps(r: Receiver, ps: seq<Packet>, s: Sender, q: Receiver, x: Packet)
    requires r.reasm.out.WellFormed() && (r.listening || r.isn.Some?)
    requires forall p :: p in ps ==> Queued(p, s) && Fits(p, q)
    requires x in StampAll(r, ps)
    ensures Genuine(x, s) && Fits(x, q)
    ensures x.seg.header.ack ==> !r.listening && !r.reasm.out.error && x.absAck == r.AbsAck()
                                 && r.AckNo() == Some(x.seg.header.ackno) && x.seg.header.win <= r.Window()
  {
    hide Stamp, Queued, Genuine, Fits;
    var i :| 0 <= i < |StampAll(r, ps)| && StampAll(r, ps)[i] == x;
    assert ps[i] in ps;
    StampKeeps(r, ps[i], s, q);
  }

  /** Handing the queue on, stamped with the receiver's state: true data one way, true acknowledgements the other. */
  lemma EnqueueLinked(a: Connection, b: Connection, wa: set<Packet>, wb: set<Packet>)
    requires Linked(a, b, wa, wb) && OutFits(a, b) && !a.needRst
    ensures LinkedAfter(a, Enqueue(a), b, wa, wb)
  {
    var d := Enqueue(a);
    var more := Elements(d.out[|a.out|..]);
    assert d.out[|a.out|..] == StampAll(a.receiver, a.sender.out);
    forall x | x in more
      ensures Genuine(x, a.sender) && Fits(x, b.receiver)
      ensures x.seg.header.ack ==>
                && !a.receiver.listening && !a.receiver.reasm.out.error && x.absAck == a.receiver.AbsAck()
                && a.receiver.AckNo() == Some(x.seg.header.ackno) && x.seg.header.win <= a.receiver.Window()
    {
      hide Genuine, Fits, LogValid, QueueValid, TimerValid, InStep, AcksValid, FlowValid;
      StampAllKeeps(a.receiver, a.sender.out, a.sender, b.receiver, x);
    }
    hide Stamp, StampAll, Genuine, Fits, Link, Inv;
    EmitMove(a.sender, b.receiver, wa, wb, more);
    AcknowledgeMove(b.sender, a.receiver, wb, wa, more);
    DrainMove(a.sender, b.receiver, wa + more, wb);
  }

  lemma DrainMove(s: Sender, r: Receiver, fwd: set<Packet>, back: set<Packet>)
    requires Link(s, r, fwd, back)
    ensures Link(s.(out := []), r, fwd, back)
  {
    hide LogValid, QueueValid, TimerValid, Genuine, Faithful, InStep, FlowValid, AcksValid;
    DrainedInv(s);
    QuietMove(s, s.(out := []), r, fwd, back);
  }

  /** One side after its window was filled, its queue still to be handed on. */
  lemma FillLinked(a: Connection, b: Connection, wa: set<Packet>, wb: set<Packet>)
    requires Linked(a, b, wa, wb) && OutFits(a, b) && !a.sender.stream.error
    ensures var d := a.(sender := FillWindow(a.sender));
            Linked(d, b, wa, wb) && OutFits(d, b)
  {
    hide LogValid, TimerValid, Genuine, Faithful, InStep, FlowValid, AcksValid, Fits, FillWindow;
    FillWindowMove(a.sender, b.receiver, wa, wb);
  }

  lemma EmptyLinked(a: Connection, b: Connection, wa: set<Packet>, wb: set<Packet>)
    requires Linked(a, b, wa, wb) && OutFits(a, b)
    ensures var d := a.(sender := SendEmpty(a.sender));
            Linked(d, b, wa, wb) && OutFits(d, b)
  {
    hide Link, Fits, SendEmpty;
    EmptyMove(a.sender, b.receiver, wa, wb);
  }

  /** A local move of the sender that sends nothing by itself. */
  lemma QuietLinked(a: Connection, s: Sender, b: Connection, wa: set<Packet>, wb: set<Packet>)
    requires Linked(a, b, wa, wb) && OutFits(a, b)
    requires Inv(s) && Advances(a.sender, s) && s.sent == a.sender.sent && s.out == a.sender.out
    requires s.lastAck == a.sender.lastAck && s.window == a.sender.window
    ensures Linked(a.(sender := s), b, wa, wb) && OutFits(a.(sender := s), b)
  {
    hide Link, Fits, Inv, Advances;
    QuietMove(a.sender, s, b.receiver, wa, wb);
  }

  lemma FillCallLinked(a: Connection, s: Sender, b: Connection, wa: set<Packet>, wb: set<Packet>)
    requires Linked(a, b, wa, wb) && a.Sound() && a.sender.out == []
    requires Inv(s) && Advances(a.sender, s) && s.sent == a.sender.sent && s.out == a.sender.out && !s.stream.error
    requires s.lastAck == a.sender.lastAck && s.window == a.sender.window
    ensures LinkedAfter(a, FillAndQueue(a.(sender := s)), b, wa, wb)
  {
    hide LogValid, TimerValid, Genuine, Faithful, InStep, FlowValid, AcksValid, Fits, FillWindow, Enqueue, Advances;
    QuietLinked(a, s, b, wa, wb);
    var a1 := a.(sender := s);
    FillLinked(a1, b, wa, wb);
    EnqueueLinked(a1.(sender := FillWindow(s)), b, wa, wb);
  }

  // ---- taking a packet in ----

  /** A packet arrives no later than half the sequence space after it was sent. */
  predicate FreshFor(a: Connection, p: Packet) {
    && a.receiver.Progress() - p.abs <= TWO31
    && (p.seg.header.ack ==> a.sender.lastAck - p.absAck <= TWO31)
  }

  lemma TakeInLinked(a: Connection, p: Packet, b: Connection, wa: set<Packet>, wb: set<Packet>)
    requires Linked(a, b, wa, wb) && OutFits(a, b) && a.WellFormed() && a.Sound()
    requires p in wb && FreshFor(a, p) && Receivable(a.receiver, p.seg)
    ensures var t := TakeIn(a, p.seg);
            Linked(t, b, wa, wb) && OutFits(t, b)
  {
    hide LogValid, QueueValid, TimerValid, Genuine, Faithful, InStep, FlowValid, AcksValid, Fits, SegmentReceived;
    DeliverMove(p, b.sender, a.receiver, wb, wa);
    if p.seg.header.ack {
      AckMove(p, a.sender, b.receiver, wa, wb);
      AckReceivedInv(a.sender, p.seg.header.ackno, p.seg.header.win);
    }
    hide AckReceived, Link;
  }

  lemma ReceiveLinked(a: Connection, p: Packet, b: Connection, wa: set<Packet>, wb: set<Packet>)
    requires Linked(a, b, wa, wb) && a.sender.out == [] && a.WellFormed() && a.Sound()
    requires p in wb && FreshFor(a, p) && Acceptable(a, p.seg)
    ensures LinkedAfter(a, Receive(a, p.seg), b, wa, wb)
  {
    hide LogValid, TimerValid, Genuine, Faithful, InStep, FlowValid, AcksValid, Fits, TakeIn, Enqueue, Ignored;
    var a1 := a.(sinceRecv := 0);
    if Ignored(a, p.seg) {
      assert a.out[|a.out|..] == [];
      assert wa + Elements([]) == wa;
    } else if p.seg.header.rst {
      ResetLinked(a1, b, wa, wb);
      assert a.out[|a.out|..] == [];
      assert wa + Elements([]) == wa;
    } else {
      TakeInReady(a1, p.seg);
      TakeInLinked(a1, p, b, wa, wb);
      ReplyLinked(TakeIn(a1, p.seg), p.seg, b, wa, wb);
    }
  }

  lemma ReplyLinked(t: Connection, seg: TcpSegment, b: Connection, wa: set<Packet>, wb: set<Packet>)
    requires Linked(t, b, wa, wb) && OutFits(t, b) && !t.sender.stream.error && !t.needRst
    ensures LinkedAfter(t, Enqueue(TryCleanShutdown(Reply(t, seg))), b, wa, wb)
  {
    hide LogValid, TimerValid, Genuine, InStep, FlowValid, AcksValid, Fits, FillWindow, Enqueue, SendEmpty, Wrap;
    FillLinked(t, b, wa, wb);
    EmptyLinked(t.(sender := FillWindow(t.sender)), b, wa, wb);
    var v := TryCleanShutdown(Reply(t, seg));
    assert Linked(v, b, wa, wb) && OutFits(v, b);
    EnqueueLinked(v, b, wa, wb);
  }

  lemma ResetLinked(a: Connection, b: Connection, wa: set<Packet>, wb: set<Packet>)
    requires Linked(a, b, wa, wb)
    ensures Linked(UncleanShutdown(a), b, wa, wb)
  {
    hide LogValid, QueueValid, TimerValid, Genuine, Faithful, InStep, FlowValid, AcksValid;
    ErrorMove(b.sender, a.receiver, wb, wa);
    DrainInv(a.sender, a.sender.out, true);
    QuietMove(a.sender, a.sender.(stream := a.sender.stream.SetError()), b.receiver, wa, wb);
  }

  // ---- time ----

  lemma TickLinked(a: Connection, ms: nat, b: Connection, wa: set<Packet>, wb: set<Packet>)
    requires Linked(a, b, wa, wb) && a.sender.out == [] && a.WellFormed() && a.Sound()
    ensures LinkedAfter(a, TickBy(a, ms), b, wa, wb)
  {
    hide LogValid, QueueValid, TimerValid, Genuine, Faithful, InStep, FlowValid, AcksValid, Fits, Tick, Enqueue;
    TickInv(a.sender, ms);
    TickMove(a.sender, ms, b.receiver, wa, wb);
    var c1 := a.(sinceRecv := a.sinceRecv + ms, sender := Tick(a.sender, ms));
    assert Linked(c1, b, wa, wb) && OutFits(c1, b);
    if c1.sender.retx > MAX_RETX_ATTEMPTS {
      GiveUpLinked(c1, b, wa, wb);
    } else {
      EnqueueLinked(TryCleanShutdown(c1), b, wa, wb);
    }
  }

  lemma GiveUpLinked(c: Connection, b: Connection, wa: set<Packet>, wb: set<Packet>)
    requires Linked(c, b, wa, wb) && OutFits(c, b)
    ensures var c1 := UncleanShutdown(c).(needRst := true);
            LinkedAfter(c, Enqueue(c1.(sender := SendEmpty(c1.sender))), b, wa, wb)
  {
    hide LogValid, QueueValid, TimerValid, InStep, FlowValid, AcksValid;
    var c1 := UncleanShutdown(c).(needRst := true);
    ResetLinked(c, b, wa, wb);
    assert OutFits(c1, b);
    EmptyLinked(c1, b, wa, wb);
    var c2 := c1.(sender := SendEmpty(c1.sender));
    SendEmptyInv(c1.sender);
    var d := Enqueue(c2);
    var x := AsReset(c2.sender.out[0]);
    assert d.out[|c.out|..] == [x];
    assert Queued(c2.sender.out[0], c2.sender) && Fits(c2.sender.out[0], b.receiver);
    ResetKeeps(c2.sender.out[0], c2.sender, b.receiver);
    hide Link, Genuine, Fits;
    EmitMove(c2.sender, b.receiver, wa, wb, {x});
    AcknowledgeMove(b.sender, c2.receiver, wb, wa, {x});
    assert Elements([x]) == {x};
  }

  lemma ResetKeeps(p: Packet, s: Sender, r: Receiver)
    requires Queued(p, s) && Fits(p, r)
    ensures Genuine(AsReset(p), s) && Fits(AsReset(p), r) && !AsReset(p).seg.header.ack
  {
    hide Wrap;
    var x := AsReset(p);
    assert CarriesSlice(p, s.stream.written, s.stream.ended) ==> CarriesSlice(x, s.stream.written, s.stream.ended);
  }
}
