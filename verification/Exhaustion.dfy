/** Where nothing helps any more: a segment the peer lacks, every copy of it lost, and no attempt left. */
module Exhaustion {
  import opened Bytes
  import opened WrappingIntegers
  import opened Segments
  import opened Reassembly
  import opened Receiving
  import opened Sending
  import opened SenderInvariants
  import opened SenderRuns
  import opened Connecting
  import opened ConnectionInvariants
  import opened ConnectionRuns
  import opened Links
  import opened Duplex
  import opened Transmission
  import opened Network
  import opened Delivery
  import opened Reachability
  import opened Handshakes
  import opened Progress

  predicate Carries(p: Packet, n: nat) {
    p.abs <= n < p.End()
  }

  /** The next expiry of `c` is one too many, if it is still up. */
  predicate Spent(c: Connection) {
    c.active ==> c.sender.retx == MAX_RETX_ATTEMPTS && 0 < c.sender.window
  }

  /** Nothing on the way carries number `n`, except in a reset. */
  ghost predicate Missing(ws: set<Packet>, n: nat) {
    forall p :: p in ws && Carries(p, n) ==> p.seg.header.rst
  }

  /** Every acknowledgement of everything below `n` on the way keeps the window open. */
  ghost predicate KeptOpen(ws: set<Packet>, n: nat) {
    forall p :: p in ws && p.seg.header.ack && p.absAck == n && !p.seg.header.rst ==> 0 < p.seg.header.win
  }

  /** The peer waits for number `n`, the sender knows it and has sent it, but has no attempt left. */
  ghost predicate Doomed(w: World, n: nat) {
    && Good(w) && w.b.receiver.Progress() == n == w.a.sender.lastAck < w.a.sender.nextSeq
    && Spent(w.a) && Missing(Elements(w.a.out) + w.ab, n)
    && 0 < w.b.receiver.Window() && KeptOpen(Elements(w.b.out) + w.ba, n)
  }

  // ---- at the sending side ----

  /** The sender stays as it is, except that it may send numbers beyond. */
  ghost predicate StillSpent(c: Connection, d: Connection) {
    && Spent(d) && d.sender.lastAck == c.sender.lastAck && c.sender.nextSeq <= d.sender.nextSeq
    && NewBeyond(c, d, c.sender.nextSeq)
  }

  lemma FillSpent(c: Connection, s: Sender)
    requires ConnInv(c) && c.active && Spent(c) && Inv(s) && !s.stream.error && s.out == []
    requires s.lastAck == c.sender.lastAck && s.nextSeq == c.sender.nextSeq && s.window == c.sender.window
    requires s.retx == c.sender.retx
    ensures StillSpent(c, FillAndQueue(c.(sender := s)))
  {
    hide LogValid, TimerValid, Genuine, FillWindow, Enqueue, NewBeyond;
    FillWindowInv(s);
    FillKeepsAck(s);
    FillKeepsStream(s);
    FillCallBeyond(c, s);
    EnqueueKeepsSent(c.(sender := FillWindow(s)));
  }

  /** The one attempt too many sends the segment only as a reset; before it nothing is sent. */
  lemma TickSpent(c: Connection, ms: nat)
    requires ConnInv(c) && c.active && Spent(c)
    ensures StillSpent(c, TickBy(c, ms))
  {
    hide LogValid, QueueValid, Genuine;
    TickInv(c.sender, ms);
    if Elapse(c.sender, ms).timer.Expired() {
      TickGivesUp(c, ms);
      GaveUp(c, ms);
    } else {
      NothingSentEarly(c.sender, ms);
      hide TimerValid;
    }
  }

  lemma GaveUp(c: Connection, ms: nat)
    requires ConnInv(c) && c.active && TickedSender(c, ms).retx > MAX_RETX_ATTEMPTS
    ensures var d := TickBy(c, ms);
            d.sender.lastAck == c.sender.lastAck && d.sender.nextSeq == c.sender.nextSeq
  {
    hide LogValid, QueueValid, TimerValid, Genuine, Tick, Wrap;
    TickInv(c.sender, ms);
  }

  lemma SelfSpent(c: Connection, d: Connection)
    requires Spent(c) && d.sender == c.sender.(stream := d.sender.stream) && (d.active ==> c.active) && d.out == c.out
    ensures StillSpent(c, d)
  {
  }

  lemma AckTakenIn(w: World, n: nat, p: Packet)
    requires Doomed(w, n) && p in w.ba && w.a.active && FreshFor(w.a, p) && !p.seg.header.rst
    requires Receivable(w.a.receiver, p.seg)
    ensures var t := TakeIn(w.a.(sinceRecv := 0), p.seg).sender;
            t.lastAck == n && t.retx == w.a.sender.retx && 0 < t.window && w.a.sender.nextSeq == t.nextSeq
  {
    var wa, wb := Elements(w.a.out) + w.ab, Elements(w.b.out) + w.ba;
    hide LogValid, QueueValid, TimerValid, Genuine, Faithful, InStep, FlowValid, SegmentReceived, AckReceived, RoomFor;
    hide Unwrap, Wrap, Receivable;
    if p.seg.header.ack {
      assert TrueAck(p, w.a.sender, w.b.receiver);
      AckRecovered(p, w.a.sender, w.b.receiver, wa, wb);
      AckReceivedInv(w.a.sender, p.seg.header.ackno, p.seg.header.win);
    }
  }

  /** No acknowledgement says anything new, so no attempt is given back. */
  lemma AckSpent(w: World, n: nat, p: Packet)
    requires Doomed(w, n) && p in w.ba && w.a.active && FreshFor(w.a, p) && !p.seg.header.rst
    requires Receivable(w.a.receiver, p.seg)
    ensures var t := Refilled(w.a.(sinceRecv := 0), p.seg);
            && t.lastAck == n && t.retx == w.a.sender.retx && 0 < t.window && w.a.sender.nextSeq <= t.nextSeq
  {
    hide LogValid, TimerValid, Genuine, Linked, FillWindow, TakeIn, Missing, KeptOpen, Receivable;
    var c := w.a.(sinceRecv := 0);
    TakeInReady(c, p.seg);
    AckTakenIn(w, n, p);
    var s := TakeIn(c, p.seg).sender;
    FillWindowInv(s);
    FillKeepsAck(s);
    FillKeepsStream(s);
  }

  lemma ArrivalSpent(w: World, n: nat, p: Packet)
    requires Doomed(w, n) && Can(w, Arrive(p)) && Permitted(w.a, Segment(p.seg))
    ensures StillSpent(w.a, Receive(w.a, p.seg))
  {
    hide LogValid, QueueValid, TimerValid, Genuine, Link, Handle, Refilled, Ignored, Receivable, NewBeyond, StillSpent;
    if Ignored(w.a, p.seg) || p.seg.header.rst {
      SelfSpent(w.a, Receive(w.a, p.seg));
    } else {
      var c := w.a.(sinceRecv := 0);
      HandledParts(c, p.seg);
      AckSpent(w, n, p);
      HandledSpent(w.a, c, Handle(c, p.seg), Refilled(c, p.seg));
    }
  }

  lemma HandledSpent(a: Connection, c: Connection, d: Connection, t: Sender)
    requires Spent(a) && a.active && c == a.(sinceRecv := c.sinceRecv)
    requires d.sender == t.(out := d.sender.out) && NewBeyond(c, d, c.sender.nextSeq)
    requires t.lastAck == a.sender.lastAck && t.retx == a.sender.retx && 0 < t.window && a.sender.nextSeq <= t.nextSeq
    ensures StillSpent(a, d)
  {
  }

  lemma CallSpent(c: Connection, op: ConnOp)
    requires ConnInv(c) && Spent(c) && Permitted(c, op) && !op.Segment? && !op.Flush?
    ensures StillSpent(c, ConnectionInvariants.Step(c, op))
  {
    hide LogValid, QueueValid, TimerValid, Genuine, FillAndQueue, TickBy, StillSpent;
    match op
    case Connect => FillSpent(c, c.sender);
    case WriteOp(data) =>
      WriteInv(c.sender, data);
      FillSpent(c, c.sender.(stream := c.sender.stream.Write(data)));
    case EndOp =>
      EndInputInv(c.sender);
      FillSpent(c, c.sender.(stream := c.sender.stream.EndInput()));
    case TickOp(ms) => TickSpent(c, ms);
    case ReadOp(len) => SelfSpent(c, ConnectionInvariants.Step(c, op));
  }

  /** Whatever happens at the sending side, the number stays missing. */
  lemma DoomedHere(w: World, n: nat, e: Event)
    requires Doomed(w, n) && Can(w, e)
    ensures Doomed(Next(w, e), n) && Next(w, e).b == w.b
  {
    hide Inv, Linked, ConnectionInvariants.Step, Permitted, StillSpent, Carries;
    NextGood(w, e);
    var v := Next(w, e);
    match e
    case Call(op) =>
      CallSpent(w.a, op);
      StillDoomed(w, n, v);
    case Arrive(p) =>
      ArrivalPermitted(w, p);
      SpentArrival(w, n, p);
      StillDoomed(w, n, v);
    case Send =>
      assert Elements(v.a.out) + v.ab == Elements(w.a.out) + w.ab;
    case Drop(_) =>
  }

  lemma SpentArrival(w: World, n: nat, p: Packet)
    requires Doomed(w, n) && Can(w, Arrive(p)) && Permitted(w.a, Segment(p.seg))
    ensures StillSpent(w.a, ConnectionInvariants.Step(w.a, Segment(p.seg)))
  {
    hide Inv, Linked, StillSpent, Receive;
    ArrivalSpent(w, n, p);
  }

  lemma StillDoomed(w: World, n: nat, v: World)
    requires Doomed(w, n) && Good(v) && v == w.(a := v.a) && StillSpent(w.a, v.a)
    ensures Doomed(v, n)
  {
    hide Good;
    forall p | p in Elements(v.a.out) + v.ab && Carries(p, n)
      ensures p.seg.header.rst
    {
      if p !in Elements(w.a.out) + w.ab {
        var i :| 0 <= i < |v.a.out| && v.a.out[i] == p;
        assert i < |w.a.out| ==> v.a.out[i] == w.a.out[i];
      }
    }
  }

  // ---- at the receiving side ----

  /** The receiver still waits for the same number, with at least the room it had, and has delivered no more. */
  predicate StillWaits(r: Receiver, t: Receiver) {
    && t.Progress() == r.Progress() && r.Window() <= t.Window()
    && t.reasm.out.written == r.reasm.out.written && t.reasm.out.ended == r.reasm.out.ended
  }

  /** A packet without the number expected next does not bring it. */
  lemma NotReceived(q: Packet, s: Sender, r: Receiver, fwd: set<Packet>, back: set<Packet>)
    requires Link(s, r, fwd, back) && q in fwd && !r.reasm.out.error && r.Progress() - q.abs <= TWO31
    requires r.Progress() < s.nextSeq && !Carries(q, r.Progress()) && Receivable(r, q.seg)
    ensures StillWaits(r, SegmentReceived(r, q.seg))
  {
    hide Inv, InStep, AcksValid, SegmentReceived, Fits, Wrap, CarriesSlice;
    if r.listening {
      ListensOn(q, s, r);
    } else {
      DeliverExact(q, s, r, fwd, back);
      DeliverMove(q, s, r, fwd, back);
      var t := SegmentReceived(r, q.seg);
      SameRoom(r, q.seg);
      NumberElsewhere(q, s, r);
      assert !r.reasm.Has(r.reasm.Next()) && !t.reasm.Has(t.reasm.Next());
      assert t.reasm.Next() < r.reasm.Next() ==> r.reasm.Has(t.reasm.Next());
      assert !t.reasm.Has(r.reasm.Next());
      assert r.reasm.Next() < t.reasm.Next() ==> t.reasm.Has(r.reasm.Next());
    }
  }

  lemma ListensOn(q: Packet, s: Sender, r: Receiver)
    requires r.WellFormed() && r.listening && !r.reasm.out.error && Genuine(q, s) && !Carries(q, 0)
    requires Receivable(r, q.seg)
    ensures SegmentReceived(r, q.seg) == r
  {
    hide Wrap, CarriesSlice;
  }

  lemma SameRoom(r: Receiver, seg: TcpSegment)
    requires r.WellFormed() && !r.reasm.out.error && !r.listening && Receivable(r, seg)
    ensures SegmentReceived(r, seg).reasm.out.Limit() == r.reasm.out.Limit()
  {
    hide Unwrap, Push;
    if DataStart(r, seg) > 0 {
      PushContinues(r.reasm, seg.payload, DataStart(r, seg) - 1, seg.header.fin);
    }
  }

  lemma NumberElsewhere(q: Packet, s: Sender, r: Receiver)
    requires Inv(s) && Faithful(s, r) && Genuine(q, s) && !r.listening && !Carries(q, r.Progress())
    requires r.Progress() < s.nextSeq
    ensures !r.reasm.out.ended && !(q.abs - 1 <= r.reasm.Next() < q.abs - 1 + |q.seg.payload|)
    ensures r.reasm.Next() == |s.stream.written| ==> !q.seg.header.fin && r.reasm.eof.None?
  {
    hide Wrap, LogValid, QueueValid, TimerValid;
  }

  lemma CallWaits(c: Connection, op: ConnOp)
    requires ConnInv(c) && Permitted(c, op) && !op.Segment? && !op.Flush?
    ensures StillWaits(c.receiver, ConnectionInvariants.Step(c, op).receiver)
  {
    hide LogValid, QueueValid, TimerValid, Genuine, FillAndQueue, TickBy;
    match op
    case Connect => FillKeepsHeld(c, c.sender);
    case WriteOp(data) =>
      WriteInv(c.sender, data);
      FillKeepsHeld(c, c.sender.(stream := c.sender.stream.Write(data)));
    case EndOp =>
      EndInputInv(c.sender);
      FillKeepsHeld(c, c.sender.(stream := c.sender.stream.EndInput()));
    case TickOp(ms) => TickWaits(c, ms);
    case ReadOp(len) =>
  }

  lemma TickWaits(c: Connection, ms: nat)
    requires c.WellFormed() && c.Sound()
    ensures StillWaits(c.receiver, TickBy(c, ms).receiver)
  {
    hide LogValid, QueueValid, TimerValid, Genuine, Tick, StampAll, SendEmpty;
    TickInv(c.sender, ms);
  }

  lemma ArrivalWaits(w: World, n: nat, q: Packet)
    requires Doomed(w, n) && q in w.ab && w.b.active && FreshFor(w.b, q) && Acceptable(w.b, q.seg)
    ensures StillWaits(w.b.receiver, Receive(w.b, q.seg).receiver)
  {
    var wa, wb := Elements(w.a.out) + w.ab, Elements(w.b.out) + w.ba;
    hide LogValid, QueueValid, TimerValid, Genuine, Link, Receive, SegmentReceived, Ignored, Receivable;
    ReceivedBy(w.b, q.seg);
    if !Ignored(w.b, q.seg) && !q.seg.header.rst {
      NotReceived(q, w.a.sender, w.b.receiver, wa, wb);
    }
  }

  /** On a call that leaves a connection in error only resets are queued. */
  lemma OnlyResets(c: Connection, op: ConnOp)
    requires ConnInv(c) && Permitted(c, op) && !op.Flush? && !ConnectionInvariants.Step(c, op).Sound()
    ensures var d := ConnectionInvariants.Step(c, op);
            c.out <= d.out && forall i :: |c.out| <= i < |d.out| ==> d.out[i].seg.header.rst
  {
    hide LogValid, QueueValid, TimerValid, Genuine, FillAndQueue, TickBy, Handle, Receivable;
    match op
    case Segment(seg) =>
      if !Ignored(c, seg) && !seg.header.rst {
        ReceiveMoves(c, seg);
      }
    case Connect => ConnectMoves(c);
    case WriteOp(data) => WriteMoves(c, data);
    case EndOp => EndMoves(c);
    case TickOp(ms) =>
      if TickedSender(c, ms).retx <= MAX_RETX_ATTEMPTS {
        TickMoves(c, ms);
      } else {
        TickGivesUp(c, ms);
      }
    case ReadOp(len) =>
  }

  /** Everything the receiving side says keeps the window open. */
  lemma SaysOpen(w: World, n: nat, v: World, op: ConnOp)
    requires Doomed(w, n) && Good(v) && v == w.(b := v.b) && StillWaits(w.b.receiver, v.b.receiver)
    requires Permitted(w.b, op) && !op.Flush? && v.b == ConnectionInvariants.Step(w.b, op)
    ensures KeptOpen(Elements(v.b.out) + v.ba, n)
  {
    var wa, wb := Elements(v.a.out) + v.ab, Elements(v.b.out) + v.ba;
    hide Inv, Faithful, InStep, FlowValid, ConnectionInvariants.Step, Permitted, Wrap, RoomFor, Onward;
    StepMoves(w.b, op);
    if !v.b.Sound() {
      OnlyResets(w.b, op);
    }
    forall p | p in wb && p.seg.header.ack && p.absAck == n && !p.seg.header.rst
      ensures 0 < p.seg.header.win
    {
      assert TrueAck(p, v.a.sender, v.b.receiver);
      if p !in Elements(w.b.out) + w.ba {
        var i :| 0 <= i < |v.b.out| && v.b.out[i] == p;
        assert |w.b.out| <= i;
        assert v.b.Sound() ==> Current(p, v.b.receiver);
      }
    }
  }

  /** Whatever happens at the receiving side, the number stays missing. */
  lemma DoomedThere(w: World, n: nat, e: Event)
    requires Doomed(w, n) && Good(w.Swap()) && Can(w.Swap(), e)
    ensures Doomed(Next(w.Swap(), e).Swap(), n)
    ensures StillWaits(w.b.receiver, Next(w.Swap(), e).a.receiver)
  {
    hide Inv, Linked, ConnectionInvariants.Step, Permitted, Carries, Receivable;
    var u := w.Swap();
    NextGood(u, e);
    SwapGood(Next(u, e));
    var v := Next(u, e).Swap();
    match e
    case Call(op) =>
      CallWaits(w.b, op);
      SaysOpen(w, n, v, op);
    case Arrive(p) =>
      ArrivalPermitted(u, p);
      StepWaits(w, n, p);
      SaysOpen(w, n, v, Segment(p.seg));
    case Send =>
      assert Elements(v.b.out) + v.ba == Elements(w.b.out) + w.ba;
    case Drop(_) =>
  }

  lemma StepWaits(w: World, n: nat, p: Packet)
    requires Doomed(w, n) && Can(w.Swap(), Arrive(p)) && Permitted(w.b, Segment(p.seg))
    ensures StillWaits(w.b.receiver, ConnectionInvariants.Step(w.b, Segment(p.seg)).receiver)
  {
    hide Inv, Linked, Receive, StillWaits, Acceptable;
    ArrivalWaits(w, n, p);
  }

  // ---- over whole runs ----

  /** In no run whatever is anything more delivered. */
  lemma {:induction false} NothingMore(w: World, n: nat, es: seq<(bool, Event)>)
    requires Doomed(w, n) && CanRun(w, es)
    ensures var v := Network.Run(w, es);
            Doomed(v, n) && StillWaits(w.b.receiver, v.b.receiver)
    decreases |es|
  {
    hide Good, Can, Next, Spent, Missing, KeptOpen, Receiver.Progress, Receiver.Window;
    if es != [] {
      var e := es[0];
      if e.0 {
        DoomedHere(w, n, e.1);
      } else {
        SwapGood(w);
        DoomedThere(w, n, e.1);
      }
      NothingMore(NextAt(w, e.0, e.1), n, es[1..]);
    }
  }

  /** Nothing is queued or on the way, and each side knows how far the other is. */
  predicate Stranded(w: World) {
    && w.ab == {} == w.ba && w.a.out == [] == w.b.out
    && w.a.sender.lastAck == w.b.receiver.Progress() && w.b.sender.lastAck == w.a.receiver.Progress()
  }

  /** A sender that has sent more than the receiver has, and may still send, does so into an open window. */
  lemma WindowOpen(s: Sender, r: Receiver)
    requires Inv(s) && Faithful(s, r) && InStep(s, r) && 0 < s.window && s.outstanding != []
    requires s.lastAck == r.Progress()
    ensures s.lastAck < s.nextSeq && 0 < r.Window()
  {
    hide TimerValid, Reassembler.Agrees, Reassembler.InWindow, Reassembler.Has;
    FrontGenuine(s);
    hide LogValid, Wrap;
  }

  lemma LostDooms(w: World)
    requires Good(w) && w.a.sender.lastAck == w.b.receiver.Progress() && w.a.sender.outstanding != []
    requires Spent(w.a) && w.a.active && w.ab == {} == w.ba && w.a.out == [] == w.b.out
    ensures Doomed(w, w.a.sender.lastAck)
  {
    hide Inv, Faithful, InStep, FlowValid, AcksValid, Receiver.Progress, Receiver.Window;
    WindowOpen(w.a.sender, w.b.receiver);
  }

  lemma DoomedNotDone(w: World, v: World)
    requires Alive(w) && Stranded(w) && !HasAttempt(w.a) && !Done(w.a, w.b) && Path(w, v)
    ensures !Done(v.a, v.b)
  {
    hide Doomed, Linked, Inv;
    LostDooms(w);
    var es :| CanRun(w, es) && Network.Run(w, es) == v;
    NothingMore(w, w.a.sender.lastAck, es);
  }

  /** Two stranded sides with something left to deliver recover if and only if neither has used up its attempts. */
  lemma RecoverableExactly(w: World)
    requires Alive(w) && Stranded(w) && LingersOn(w.a) && LingersOn(w.b) && !Done(w.a, w.b) && !Done(w.b, w.a)
    ensures (exists v :: Path(w, v) && BothDone(v)) <==> HasAttempt(w.a) && HasAttempt(w.b)
  {
    hide Alive, Path, LingersOn, HasAttempt, Done;
    if HasAttempt(w.a) && HasAttempt(w.b) {
      var v := Recover(w);
    }
    forall v | Path(w, v) && BothDone(v)
      ensures HasAttempt(w.a) && HasAttempt(w.b)
    {
      if !HasAttempt(w.a) {
        DoomedNotDone(w, v);
      }
      if !HasAttempt(w.b) {
        SwapAlive(w);
        SwapPath(w, v);
        DoomedNotDone(w.Swap(), v.Swap());
      }
    }
  }

  // ---- the shortest such run ----

  /** Only the SYN has been sent, `k` times again, and the other side has not moved. */
  ghost predicate Calling(w: World, w0: World, k: nat) {
    && Good(w) && w.a.active && w.a.receiver.listening && w.b == w0.b && w.ab == {} == w.ba
    && w.a.sender.outstanding != [] && w.a.sender.lastAck == 0 && w.a.sender.window == 1 && w.a.sender.retx == k
  }

  lemma CallOnce(w0: World)
    requires Good(w0) && w0.a.Listening() && w0.a.active && w0.ab == {} == w0.ba && w0.a.sender.retx == 0
    ensures Can(w0, Call(Connect)) && Calling(Next(w0, Call(Connect)), w0, 0)
  {
    hide Linked, FillAndQueue;
    NextGood(w0, Call(Connect));
    SynLeaves(w0.a);
    NewWindow(w0);
  }

  lemma NewWindow(w: World)
    requires Good(w) && w.a.sender.lastAck == 0
    ensures w.a.sender.window == 1
  {
    hide ConnInv, Inv, Faithful, FlowValid, AcksValid;
  }

  lemma SynLeaves(c: Connection)
    requires ConnInv(c) && c.active && c.Listening()
    ensures var d := FillAndQueue(c);
            && c.sender.lastAck == 0 && d == c.(sender := d.sender, out := d.out) && d.sender.outstanding != []
            && d.sender.lastAck == 0 && d.sender.window == c.sender.window && d.sender.retx == c.sender.retx
  {
    hide LogValid, TimerValid, Genuine, Wrap, Enqueue;
    ClosedSender(c.sender);
    FillWindowInv(c.sender);
    EnqueueKeepsSent(c.(sender := FillWindow(c.sender)));
  }

  lemma CallAgain(w: World, w0: World, k: nat)
    requires Calling(w, w0, k) && k < MAX_RETX_ATTEMPTS
    ensures var e := Call(TickOp(Wait(w.a)));
            Can(w, e) && Calling(Next(w, e), w0, k + 1)
  {
    hide Linked, LogValid, QueueValid, TimerValid, Genuine, TickBy;
    var e := Call(TickOp(Wait(w.a)));
    NextGood(w, e);
    ExpirySends(w.a, Wait(w.a));
  }

  lemma {:induction false} CallEight(w0: World, w: World, k: nat) returns (v: World)
    requires Good(w0) && Calling(w, w0, k) && Reaches(w0, w) && k <= MAX_RETX_ATTEMPTS
    ensures Calling(v, w0, MAX_RETX_ATTEMPTS) && Reaches(w0, v)
    decreases MAX_RETX_ATTEMPTS - k
  {
    hide Good, Reaches, Can, Next;
    v := w;
    if k < MAX_RETX_ATTEMPTS {
      CallAgain(w, w0, k);
      var e := Call(TickOp(Wait(w.a)));
      ReachesNext(w0, w, true, e);
      v := CallEight(w0, Next(w, e), k + 1);
    }
  }

  /** The nine copies go out, and all are lost. */
  lemma CallsLost(w: World, w0: World)
    requires Calling(w, w0, MAX_RETX_ATTEMPTS) && w0.b.receiver.Progress() == 0 && w0.b.out == []
    ensures var v := Next(w, Send);
            && Good(v) && v.a == w.a.(out := [])
            && var u := Next(v, Drop(v.ab));
               Doomed(u, 0) && u.a == v.a && u.b == w0.b
  {
    hide Inv, Linked, Receiver.Window;
    var v := Next(w, Send);
    NextGood(w, Send);
    NextGood(v, Drop(v.ab));
    LostDooms(Next(v, Drop(v.ab)));
  }

  /** After nine lost SYNs both sides are still active, yet in no run does the listener ever hear anything. */
  lemma NineSyns(isnA: U32, isnB: U32, caps: (nat, nat, nat, nat), rtoA: nat, rtoB: nat)
    requires 0 < caps.0 && 0 < caps.1 && 0 < caps.2 && 0 < caps.3
    ensures var w0 := Start(isnA, isnB, caps, rtoA, rtoB);
            exists w :: Reaches(w0, w) && Good(w) && w.a.active && w.b == w0.b && w.b.active && !HasAttempt(w.a) &&
                        forall es :: CanRun(w, es) ==> Network.Run(w, es).b.receiver.listening
  {
    var w0 := Start(isnA, isnB, caps, rtoA, rtoB);
    assert w0.a.Listening() && w0.a.active && w0.b.active && w0.ab == {} == w0.ba && w0.a.sender.retx == 0;
    assert w0.b.receiver.Progress() == 0 && w0.b.out == [];
    hide Start, Good, Reaches, CanRun, Network.Run, Can, Next;
    var v, w := CallsFail(w0);
    forall es | CanRun(w, es)
      ensures Network.Run(w, es).b.receiver.listening
    {
      NothingMore(w, 0, es);
    }
  }

  lemma CallsFail(w0: World) returns (v: World, w: World)
    requires Good(w0) && w0.a.Listening() && w0.a.active && w0.ab == {} == w0.ba && w0.a.sender.retx == 0
    requires w0.b.receiver.Progress() == 0 && w0.b.out == []
    ensures Calling(v, w0, MAX_RETX_ATTEMPTS) && Reaches(w0, v)
    ensures Reaches(w0, w) && Doomed(w, 0) && w.a == v.a.(out := []) && w.b == w0.b
  {
    hide Good, Reaches, Next;
    ReachesSelf(w0);
    CallOnce(w0);
    ReachesNext(w0, w0, true, Call(Connect));
    v := CallEight(w0, Next(w0, Call(Connect)), 0);
    CallsLost(v, w0);
    ReachesNext(w0, v, true, Send);
    var u := Next(v, Send);
    ReachesNext(w0, u, true, Drop(u.ab));
    w := Next(u, Drop(u.ab));
  }
}
