/** What goes over the wire: everything two endpoints ever send has a form that can be serialized, and is read back. */
module Wires {
  import opened Bytes
  import opened Segments
  import opened Receiving
  import opened Sending
  import opened SenderInvariants
  import opened Connecting
  import opened ConnectionInvariants
  import opened Transmission
  import opened Duplex
  import opened Network
  import opened TcpCodec
  import opened NetParsing
  import opened Ipv4Codec

  /** A header of five words, no urgent or push marks, nothing yet in the fields that are filled in further down. */
  predicate Tidy(seg: TcpSegment) {
    var h := seg.header;
    && h.doff == 5 && !h.urg && !h.psh && h.uptr == 0 && h.cksum == 0 && h.sport == 0 == h.dport
    && |seg.payload| <= 1000
  }

  ghost predicate AllTidy(ps: seq<Packet>) {
    forall p :: p in ps ==> Tidy(p.seg)
  }

  ghost predicate TidySender(s: Sender) {
    AllTidy(s.sent) && AllTidy(s.out)
  }

  ghost predicate TidySide(c: Connection) {
    TidySender(c.sender) && AllTidy(c.out)
  }

  lemma {:induction false} LoopTidy(s: Sender)
    requires s.stream.WellFormed() && s.lastAck <= s.nextSeq && TidySender(s)
    ensures TidySender(FillLoop(s))
    decreases s.FreeWindow()
  {
    hide CanSend, CarriesFin;
    if CanSend(s) {
      FillStepProgress(s);
      LoopTidy(FillStep(s));
    }
  }

  lemma FillTidy(s: Sender)
    requires s.stream.WellFormed() && s.lastAck <= s.nextSeq && TidySender(s)
    ensures TidySender(FillWindow(s))
  {
    hide FillLoop;
    LoopTidy(s);
  }

  lemma StampTidy(r: Receiver, ps: seq<Packet>)
    requires r.reasm.out.WellFormed() && (r.listening || r.isn.Some?) && AllTidy(ps)
    ensures AllTidy(StampAll(r, ps))
  {
    forall q | q in StampAll(r, ps)
      ensures Tidy(q.seg)
    {
      var i :| 0 <= i < |ps| && StampAll(r, ps)[i] == q;
      assert q == Stamp(r, ps[i]) && ps[i] in ps;
    }
  }

  lemma EnqueueTidy(c: Connection)
    requires c.receiver.reasm.out.WellFormed() && (c.receiver.listening || c.receiver.isn.Some?) && TidySide(c)
    ensures TidySide(Enqueue(c))
  {
    hide StampAll;
    StampTidy(c.receiver, c.sender.out);
    assert c.sender.out != [] ==> c.sender.out[0] in c.sender.out;
  }

  lemma TickTidy(s: Sender, ms: nat)
    requires Inv(s) && TidySender(s)
    requires Elapse(s, ms).timer.Expired() ==> s.outstanding != []
    ensures TidySender(Tick(s, ms))
  {
    hide LogValid, TimerValid, Genuine;
    if s.outstanding != [] {
      var i := |s.sent| - |s.outstanding|;
      assert s.outstanding[0] == s.sent[i].seg && s.sent[i] in s.sent;
    }
  }

  lemma ReceiveTidy(c: Connection, seg: TcpSegment)
    requires ConnInv(c) && c.active && Acceptable(c, seg) && TidySide(c)
    ensures TidySide(Receive(c, seg))
  {
    hide LogValid, QueueValid, TimerValid, Genuine, Handle, Receivable, Ignored;
    if !Ignored(c, seg) && !seg.header.rst {
      HandleTidy(c.(sinceRecv := 0), seg);
    }
  }

  lemma HandleTidy(c: Connection, seg: TcpSegment)
    requires c.WellFormed() && c.Sound() && Receivable(c.receiver, seg) && TidySide(c)
    ensures TidySide(Handle(c, seg))
  {
    hide LogValid, TimerValid, Genuine, TakeIn, FillWindow, ReplyDue, Enqueue, Receivable;
    TakeInReady(c, seg);
    TakeInSent(c, seg);
    var t := TakeIn(c, seg);
    FillTidy(t.sender);
    var u := TryCleanShutdown(Reply(t, seg));
    assert TidySender(u.sender);
    EnqueueTidy(u);
  }

  lemma FillCallTidy(c: Connection, s: Sender)
    requires c.WellFormed() && Inv(s) && TidySide(c) && s.sent == c.sender.sent && s.out == c.sender.out
    ensures TidySide(FillAndQueue(c.(sender := s)))
  {
    hide LogValid, TimerValid, Genuine, FillWindow, Enqueue;
    FillTidy(s);
    EnqueueTidy(c.(sender := FillWindow(s)));
  }

  lemma TickCallTidy(c: Connection, ms: nat)
    requires c.WellFormed() && c.Sound() && TidySide(c)
    ensures TidySide(TickBy(c, ms))
  {
    hide LogValid, QueueValid, TimerValid, Genuine, Tick, Enqueue;
    TickInv(c.sender, ms);
    TickTidy(c.sender, ms);
    EnqueueTidy(AfterTick(c.(sinceRecv := c.sinceRecv + ms, sender := Tick(c.sender, ms))));
  }

  lemma StepTidy(c: Connection, op: ConnOp)
    requires ConnInv(c) && Permitted(c, op) && TidySide(c)
    ensures TidySide(ConnectionInvariants.Step(c, op))
  {
    hide LogValid, QueueValid, TimerValid, Genuine, Receive, FillAndQueue, TickBy, Acceptable;
    match op
    case Segment(seg) => ReceiveTidy(c, seg);
    case Connect => FillCallTidy(c, c.sender);
    case WriteOp(data) =>
      WriteInv(c.sender, data);
      FillCallTidy(c, c.sender.(stream := c.sender.stream.Write(data)));
    case EndOp =>
      EndInputInv(c.sender);
      FillCallTidy(c, c.sender.(stream := c.sender.stream.EndInput()));
    case TickOp(ms) => TickCallTidy(c, ms);
    case ReadOp(len) =>
    case Flush =>
  }

  // ---- over whole runs ----

  ghost predicate TidyWorld(w: World) {
    && TidySide(w.a) && TidySide(w.b)
    && (forall p :: p in w.ab ==> Tidy(p.seg)) && (forall p :: p in w.ba ==> Tidy(p.seg))
  }

  lemma NextTidy(w: World, e: Event)
    requires Good(w) && Can(w, e) && TidyWorld(w)
    ensures TidyWorld(Next(w, e))
  {
    hide Inv, Linked, ConnectionInvariants.Step, Permitted, Tidy;
    match e
    case Call(op) => StepTidy(w.a, op);
    case Arrive(p) =>
      ArrivalPermitted(w, p);
      StepTidy(w.a, Segment(p.seg));
    case Send =>
    case Drop(_) =>
  }

  lemma {:induction false} RunTidy(w: World, es: seq<(bool, Event)>)
    requires Good(w) && CanRun(w, es) && TidyWorld(w)
    ensures TidyWorld(Network.Run(w, es))
    decreases |es|
  {
    hide Good, Can, Next, Tidy, TidySide;
    if es != [] {
      var e := es[0];
      NextAtGood(w, e.0, e.1);
      SwapGood(w);
      NextTidy(if e.0 then w else w.Swap(), e.1);
      RunTidy(NextAt(w, e.0, e.1), es[1..]);
    }
  }

  /** After any run every packet on the way can be put into a datagram between any two addresses, with any ports, and is
      read back at the other end unchanged, checksum apart. */
  lemma EverythingTransmissible(isnA: U32, isnB: U32, caps: (nat, nat, nat, nat), rtoA: nat, rtoB: nat,
                                es: seq<(bool, Event)>, p: Packet, sport: U16, dport: U16, h: IpHeader)
    requires 0 < caps.0 && 0 < caps.1 && 0 < caps.2 && 0 < caps.3
    requires CanRun(Start(isnA, isnB, caps, rtoA, rtoB), es)
    requires var w := Network.Run(Start(isnA, isnB, caps, rtoA, rtoB), es); p in w.ab || p in w.ba
    requires h == DEFAULT_IP_HEADER.(src := h.src, dst := h.dst, len := h.len) && h.len == 40 + |p.seg.payload|
    ensures var seg := p.seg.(header := p.seg.header.(sport := sport, dport := dport));
            && !seg.header.urg && !seg.header.psh && seg.header.uptr == 0 && h.proto == 6
            && SerializeSegment(seg, PseudoChecksum(h)).Some?
            && var inner := SerializeSegment(seg, PseudoChecksum(h)).value;
               && SerializeDatagram(h, inner).Some?
               && var d := ParseDatagram(SerializeDatagram(h, inner).value);
                  && d.result == NoError
                  && ParseSegment(d.payload, PseudoChecksum(d.header)) ==
                     SegmentParse(Some(WithChecksum(seg, PseudoChecksum(h))), NoError)
                  && Resummed(seg, WithChecksum(seg, PseudoChecksum(h)))
  {
    hide Network.Run, CanRun, SerializeSegment, ParseDatagram, ParseSegment, PseudoChecksum, WithIpChecksum;
    hide SerializeDatagram, WithChecksum;
    var w0 := Start(isnA, isnB, caps, rtoA, rtoB);
    assert TidyWorld(w0);
    hide Start;
    RunTidy(w0, es);
    NestedRoundTrip(h, p.seg.(header := p.seg.header.(sport := sport, dport := dport)));
  }
}
