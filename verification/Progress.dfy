/** Whatever was lost, everything written can still be delivered: retransmission gets it through. */
module Progress {
  import opened Bytes
  import opened WrappingIntegers
  import opened Segments
  import opened Receiving
  import opened Sending
  import opened SenderInvariants
  import opened SenderRuns
  import opened Connecting
  import opened ConnectionInvariants
  import opened ConnectionRuns
  import opened Links
  import opened Duplex
  import opened Transmission
  import opened Network
  import opened Delivery
  import opened Reachability

  /** Everything `x`'s owner wrote has reached `y`, and its end if it has one. */
  predicate Done(x: Connection, y: Connection) {
    y.receiver.reasm.out.written == x.sender.stream.written && (x.sender.stream.ended ==> y.receiver.reasm.out.ended)
  }

  predicate BothDone(w: World) {
    Done(w.a, w.b) && Done(w.b, w.a)
  }

  /** Both endpoints are up and have timeouts. */
  ghost predicate Alive(w: World) {
    Good(w) && w.a.active && w.b.active && 0 < w.a.rtTimeout && 0 < w.b.rtTimeout
  }

  lemma SwapAlive(w: World)
    requires Alive(w)
    ensures Alive(w.Swap())
  {
    hide Good;
    SwapGood(w);
  }

  lemma PathAlive(w: World, v: World)
    requires Alive(w) && Path(w, v) && v.a.active && v.b.active
    ensures Alive(v)
  {
    hide Good, Reaches;
  }

  // ---- an endpoint that stops ----

  /** An endpoint that stops on a segment has received everything and had everything acknowledged, so both directions
      are done. */
  lemma StoppedDelivers(w: World)
    requires Good(w) && !w.a.active && w.a.Sound() && w.a.sinceRecv == 0 < w.a.rtTimeout
    ensures BothDone(w)
  {
    var wa, wb := Elements(w.a.out) + w.ab, Elements(w.b.out) + w.ba;
    hide Inv, Faithful, InStep, FlowValid, AcksValid, CleanStop;
    StopMeans(w.a);
    LinkMeans(w.a.sender, w.b.receiver, wa, wb);
    LinkMeans(w.b.sender, w.a.receiver, wb, wa);
  }

  // ---- a segment that waits to be acknowledged ----

  /** The packet carries the first number `x` has no acknowledgement of, and its own acknowledgement is recent. */
  predicate Waiting(q: Packet, x: Connection, y: Connection) {
    && q.abs <= x.sender.lastAck < q.End() && !q.seg.header.rst
    && (q.seg.header.ack ==> y.sender.lastAck <= q.absAck + MAX_WINDOW)
  }

  /** Such a packet is fresh, however long the streams. */
  lemma WaitingFresh(w: World, q: Packet)
    requires Good(w) && q in Elements(w.a.out) + w.ab && Waiting(q, w.a, w.b)
    ensures FreshFor(w.b, q)
  {
    hide LogValid, TimerValid, Faithful, InStep, AcksValid, Wrap, CarriesSlice;
    LinkMeans(w.a.sender, w.b.receiver, Elements(w.a.out) + w.ab, Elements(w.b.out) + w.ba);
    assert Genuine(q, w.a.sender);
  }

  /** A listening peer does not ignore it: it is the SYN, and carries no acknowledgement yet. */
  lemma WaitingNotIgnored(w: World, q: Packet)
    requires Good(w) && q in Elements(w.a.out) + w.ab && Waiting(q, w.a, w.b)
    ensures w.b.receiver.listening ==> q.seg.header.syn
    ensures w.b.Sound() ==> !Ignored(w.b, q.seg)
  {
    hide LogValid, QueueValid, TimerValid, Faithful, Wrap;
    assert Genuine(q, w.a.sender);
    if q.seg.header.ack {
      assert TrueAck(q, w.b.sender, w.a.receiver);
    }
  }

  // ---- the receiving side ----

  /** Nothing keeps the sender of `c` from trying again at its next timeout, which is one initial timeout away. */
  predicate Fit(c: Connection) {
    && c.sender.retx == 0
    && (c.sender.outstanding != [] ==> c.sender.timer.elapsed == 0 && c.sinceRecv == 0)
  }

  /** The number expected next is received. */
  lemma NextReceived(q: Packet, s: Sender, r: Receiver, fwd: set<Packet>, back: set<Packet>)
    requires Link(s, r, fwd, back) && q in fwd && !r.reasm.out.error && !r.listening
    requires r.Progress() - q.abs <= TWO31 && Receivable(r, q.seg)
    requires q.abs <= r.Progress() < q.End() && r.reasm.Next() < r.reasm.Limit()
    ensures r.Progress() < SegmentReceived(r, q.seg).Progress()
  {
    hide Inv, InStep, AcksValid, SegmentReceived, Fits, Wrap;
    DeliverExact(q, s, r, fwd, back);
    DeliverMove(q, s, r, fwd, back);
    LinkMeans(s, r, fwd, back);
    var t := SegmentReceived(r, q.seg);
    LinkMeans(s, t, fwd, back);
    assert !t.reasm.Has(t.reasm.Next());
    assert t.reasm.Next() < r.reasm.Next() ==> r.reasm.Has(t.reasm.Next());
    NumberWithin(q, s, r);
    if r.reasm.Next() < q.abs - 1 + |q.seg.payload| {
      assert t.reasm.Has(r.reasm.Next());
    }
  }

  /** It is a byte at the first missing index, or the end of the stream. */
  lemma NumberWithin(q: Packet, s: Sender, r: Receiver)
    requires Inv(s) && Faithful(s, r) && Genuine(q, s) && !r.listening && q.abs <= r.Progress() < q.End()
    requires r.Progress() <= s.nextSeq
    ensures !r.reasm.out.ended && q.abs - 1 <= r.reasm.Next() <= q.abs - 1 + |q.seg.payload|
    ensures r.reasm.Next() == q.abs - 1 + |q.seg.payload| ==>
              q.seg.header.fin && r.reasm.Next() == |s.stream.written|
  {
    hide Wrap, LogValid, QueueValid, TimerValid;
  }

  lemma RefilledFit(c: Connection, seg: TcpSegment)
    requires c.WellFormed() && c.Sound() && Receivable(c.receiver, seg)
    ensures var t := Refilled(c, seg);
            && c.sender.lastAck <= t.lastAck
            && ((c.sender.retx == 0 && (c.sender.outstanding != [] ==> c.sender.timer.elapsed == 0)) ||
                c.sender.lastAck < t.lastAck ==>
                  t.retx == 0 && (t.outstanding != [] ==> t.timer.elapsed == 0))
  {
    hide LogValid, Genuine, FillWindow, Unwrap, SegmentReceived, Pow2;
    TakeInReady(c, seg);
    if seg.header.ack {
      AckReceivedInv(c.sender, seg.header.ackno, seg.header.win);
    }
    var s := TakeIn(c, seg).sender;
    hide AckReceived;
    FillWindowInv(s);
    FilledSender(s);
    FillKeepsStream(s);
    FillKeepsAck(s);
  }

  /** What the arrival of a waiting segment does: a reply is queued that tells exactly what has been received, and that
      is more than its sender knew. */
  ghost predicate Answered(u: World, v: World) {
    && v == u.(a := v.a) && v.a.Sound() && v.a.sinceRecv == 0
    && u.a.out < v.a.out
    && Tells(v.a.out[|u.a.out|], v.a.receiver) && u.a.sender.nextSeq <= v.a.out[|u.a.out|].abs
    && u.b.sender.lastAck < v.a.receiver.Progress()
    && u.a.sender.lastAck <= v.a.sender.lastAck
    && (Fit(u.a) || u.a.sender.lastAck < v.a.sender.lastAck ==> Fit(v.a))
  }

  /** The packet tells the sender exactly what the receiver has. */
  predicate Tells(x: Packet, r: Receiver) {
    x.seg.header.ack && !x.seg.header.rst && x.absAck == r.Progress()
  }

  lemma TellsNow(x: Packet, r: Receiver)
    requires !r.listening && r.isn.Some? && !r.reasm.out.error && Current(x, r) && !x.seg.header.rst
    ensures Tells(x, r)
  {
    hide Wrap;
  }

  /** Arrival at the receiving side, here the first endpoint of `u`. */
  lemma SegmentArrives(u: World, q: Packet)
    requires Good(u) && Can(u, Arrive(q)) && Waiting(q, u.b, u.a)
    requires u.a.receiver.reasm.Next() < u.a.receiver.reasm.Limit()
    ensures Answered(u, Next(u, Arrive(q)))
  {
    var wa, wb := Elements(u.a.out) + u.ab, Elements(u.b.out) + u.ba;
    hide LogValid, QueueValid, TimerValid, Genuine, Link, Handle, SegmentReceived, CleanStop, Refilled;
    ArrivalPermitted(u, q);
    SwapGood(u);
    WaitingNotIgnored(u.Swap(), q);
    hide Ignored, Receivable;
    ReceiveMoves(u.a, q.seg);
    var c := u.a.(sinceRecv := 0);
    HandledParts(c, q.seg);
    RefilledFit(c, q.seg);
    var d := Handle(c, q.seg);
    ProgressMade(u.b.sender, u.a.receiver, q, wb, wa);
    TellsNow(d.out[|u.a.out|], d.receiver);
  }

  lemma ProgressMade(s: Sender, r: Receiver, q: Packet, fwd: set<Packet>, back: set<Packet>)
    requires Link(s, r, fwd, back) && q in fwd && !r.reasm.out.error && r.Progress() - q.abs <= TWO31
    requires q.abs <= s.lastAck < q.End() && (r.listening ==> q.seg.header.syn) && Receivable(r, q.seg)
    requires r.reasm.Next() < r.reasm.Limit()
    ensures var t := SegmentReceived(r, q.seg);
            !t.listening && t.isn.Some? && s.lastAck < t.Progress()
  {
    hide LogValid, TimerValid, Genuine, Faithful, FlowValid, AcksValid, SegmentReceived, Receivable;
    LinkMeans(s, r, fwd, back);
    LinkOpen(s, r, fwd, back);
    DeliverMove(q, s, r, fwd, back);
    LinkOpen(s, SegmentReceived(r, q.seg), fwd, back);
    if r.listening {
      OpenedBySyn(r, q.seg);
    } else {
      DeliverExact(q, s, r, fwd, back);
      ReceivedProgress(s, r, q, fwd, back);
      if r.Progress() < q.End() {
        NextReceived(q, s, r, fwd, back);
      }
    }
  }

  lemma LinkOpen(s: Sender, r: Receiver, fwd: set<Packet>, back: set<Packet>)
    requires Link(s, r, fwd, back)
    ensures r.WellFormed() && (r.listening <==> r.isn.None?)
  {
    hide Inv, InStep, FlowValid, AcksValid;
  }

  lemma ReceivedProgress(s: Sender, r: Receiver, q: Packet, fwd: set<Packet>, back: set<Packet>)
    requires Link(s, r, fwd, back) && q in fwd && !r.reasm.out.error && !r.listening && Receivable(r, q.seg)
    ensures r.Progress() <= SegmentReceived(r, q.seg).Progress()
  {
    hide Inv, InStep, FlowValid, AcksValid, SegmentReceived, Receivable;
    ReceiveAdvances(r, q.seg);
    ReceiveKeepsError(r, q.seg);
    RightEdgeIsLimit(r);
    ReceiveKeeps(r, q.seg);
    RightEdgeIsLimit(SegmentReceived(r, q.seg));
  }

  // ---- the sending side ----

  lemma AckRefills(c: Connection, x: Packet, b: Connection, wa: set<Packet>, wb: set<Packet>)
    requires c.WellFormed() && c.Sound() && Linked(c, b, wa, wb) && x in wb && x.seg.header.ack && FreshFor(c, x)
    requires x.absAck == b.receiver.Progress() && Receivable(c.receiver, x.seg)
    ensures Refilled(c, x.seg).lastAck == x.absAck
  {
    hide LogValid, TimerValid, Genuine, Faithful, InStep, FlowValid, AcksValid, FillWindow, SegmentReceived, Unwrap;
    LinkMeans(c.sender, b.receiver, wa, wb);
    AckRecovered(x, c.sender, b.receiver, wa, wb);
    AckReceivedInv(c.sender, x.seg.header.ackno, x.seg.header.win);
    TakeInReady(c, x.seg);
    var s := TakeIn(c, x.seg).sender;
    assert s == AckReceived(c.sender, x.seg.header.ackno, x.seg.header.win);
    hide TakeIn, AckReceived;
    FillKeepsAck(s);
  }

  /** Arrival of the reply at the sending side, here the first endpoint of `w`: it learns what has been received, and
      is fit to try again. */
  lemma AckArrives(w: World, x: Packet)
    requires Good(w) && Can(w, Arrive(x)) && Tells(x, w.b.receiver)
    requires w.a.sender.lastAck < w.b.receiver.Progress()
    ensures var v := Next(w, Arrive(x));
            v.a.sender.lastAck == w.b.receiver.Progress() && v.a.Sound() && v.a.sinceRecv == 0 && Fit(v.a) && v.b == w.b
  {
    hide LogValid, TimerValid, Genuine, Link, Handle, Refilled, Receivable, SegmentReceived;
    ArrivalPermitted(w, x);
    assert !Ignored(w.a, x.seg) by { OpenNotIgnored(w); }
    ReceiveMoves(w.a, x.seg);
    var c := w.a.(sinceRecv := 0);
    HandledParts(c, x.seg);
    RefilledFit(c, x.seg);
    AckRefills(c, x, w.b, Elements(w.a.out) + w.ab, Elements(w.b.out) + w.ba);
  }

  lemma OpenNotIgnored(w: World)
    requires Good(w) && 0 < w.b.receiver.Progress()
    ensures !w.a.Listening()
  {
    hide ConnInv, Inv, Faithful, FlowValid, AcksValid;
  }

  // ---- trying again ----

  /** How long until the timer expires. */
  function Wait(c: Connection): nat {
    Max(0, c.sender.timer.timeout - c.sender.timer.elapsed)
  }

  /** The next expiry is not one too many: the attempt counts only if the window is open. */
  predicate HasAttempt(c: Connection) {
    c.sender.outstanding == [] || c.sender.window == 0 || c.sender.retx < MAX_RETX_ATTEMPTS
  }

  /** A lingering side does not stop before the next expiry. */
  predicate LingersOn(c: Connection) {
    c.sender.outstanding != [] && c.linger && c.receiver.State().FinRecv? ==> c.sinceRecv + Wait(c) < 10 * c.rtTimeout
  }

  predicate KeepsTrying(c: Connection) {
    HasAttempt(c) && LingersOn(c)
  }

  lemma FitTries(c: Connection)
    requires ConnInv(c) && Fit(c) && 0 < c.rtTimeout
    ensures KeepsTrying(c)
  {
    hide LogValid, QueueValid, Genuine;
    assert Pow2(0) == 1;
  }

  /** Letting the timeout pass puts the first number without an acknowledgement on the queue again. */
  lemma ExpiryWaits(c: Connection)
    requires ConnInv(c) && c.active && c.sender.outstanding != [] && KeepsTrying(c)
    ensures var d := TickBy(c, Wait(c));
            && d.active && d.Sound() && d.out == c.out + [Again(c)] && d.sender.lastAck == c.sender.lastAck
            && Again(c).abs <= c.sender.lastAck < Again(c).End() && !Again(c).seg.header.rst
            && (Again(c).seg.header.ack ==> Again(c).absAck == c.receiver.Progress())
  {
    hide LogValid, TimerValid, Genuine, TickBy;
    ExpirySends(c, Wait(c));
    var d := TickBy(c, Wait(c));
    StepMoves(c, TickOp(Wait(c)));
    if d.sender.State().FinAcked? {
      FinAckedMeans(d.sender);
    }
    FrontGenuine(c.sender);
    StampTells(c.receiver, Packet(c.sender.outstanding[0], c.sender.Front(), 0));
  }

  lemma StampTells(r: Receiver, p: Packet)
    requires r.WellFormed() && !r.reasm.out.error && !p.seg.header.ack && !p.seg.header.rst
    ensures var q := Stamp(r, p);
            && q.abs == p.abs && q.seg.Length() == p.seg.Length() && !q.seg.header.rst
            && (q.seg.header.ack ==> q.absAck == r.Progress())
  {
    hide Wrap;
  }

  /** With nothing outstanding, filling the window sends the first number without an acknowledgement, unless there is
      nothing left to send. */
  lemma FillWaits(c: Connection)
    requires ConnInv(c) && c.active && c.sender.outstanding == [] && FillWindow(c.sender).out != []
    ensures var d := FillAndQueue(c);
            && d.active && d.sender.lastAck == c.sender.lastAck && c.out < d.out
            && var q := d.out[|c.out|];
               && q.abs <= c.sender.lastAck < q.End() && !q.seg.header.rst
               && (q.seg.header.ack ==> q.absAck == c.receiver.Progress())
  {
    hide LogValid, TimerValid, Genuine, FillWindow, Stamp;
    FillWindowInv(c.sender);
    FillKeepsAck(c.sender);
    FillStartsBeyond(c.sender, 0);
    var t := FillWindow(c.sender);
    var u := c.(sender := t);
    EnqueueKeepsSent(u);
    assert FillAndQueue(c).out[|c.out|] == Stamp(c.receiver, t.out[0]);
    assert t.out[0] in t.out;
    StampTells(c.receiver, t.out[0]);
  }

  lemma NothingLeft(w: World)
    requires Good(w) && w.a.Sound() && w.a.sender.outstanding == [] && w.a.sender.out == []
    requires FillWindow(w.a.sender).out == []
    ensures Done(w.a, w.b)
  {
    var s, wa, wb := w.a.sender, Elements(w.a.out) + w.ab, Elements(w.b.out) + w.ba;
    hide TimerValid, Genuine, Entry, Faithful, InStep, FlowValid, AcksValid, FillWindow;
    FillSomething(s);
    FillWindowInv(s);
    FillKeepsAck(s);
    FillKeepsStream(s);
    FillsUp(s);
    SentAgain(s);
    LinkMeans(s, w.b.receiver, wa, wb);
  }

  /** When nothing new went out, the log is as it was. */
  lemma SentAgain(s: Sender)
    requires Inv(s) && !s.stream.error && s.out == [] && FillWindow(s).out == []
    ensures FillWindow(s).sent == s.sent
  {
    hide LogValid, TimerValid, Genuine, FillWindow;
    FillSends(s);
    var t := FillWindow(s);
    assert t.sent[|s.sent|..] == [];
  }

  /** The first number without an acknowledgement is put on the queue, sent for the first time or again. */
  lemma Stir(w: World) returns (v: World, q: Packet)
    requires Alive(w) && !Done(w.a, w.b) && KeepsTrying(w.a)
    ensures Path(w, v) && Alive(v) && v.b == w.b && v.ba == w.ba && v.a.sender.lastAck == w.a.sender.lastAck
    ensures q in Elements(v.a.out) + v.ab && Waiting(q, v.a, v.b)
    ensures q.seg.header.ack ==> v.b.sender.lastAck <= q.absAck
  {
    hide LogValid, TimerValid, Genuine, Link, Reaches, StaysFor, FillAndQueue, TickBy, Again, FillWindow;
    PathSelf(w);
    BehindPeer(w);
    if w.a.sender.outstanding != [] {
      ExpiryWaits(w.a);
      var e := Call(TickOp(Wait(w.a)));
      PathNext(w, w, true, e);
      v, q := NextAt(w, true, e), Again(w.a);
    } else {
      if FillWindow(w.a.sender).out == [] {
        NothingLeft(w);
      }
      FillWaits(w.a);
      var e := Call(ConnOp.Connect);
      PathNext(w, w, true, e);
      v := NextAt(w, true, e);
      q := v.a.out[|w.a.out|];
    }
    assert q in v.a.out;
    PathAlive(w, v);
  }

  lemma BehindPeer(w: World)
    requires Good(w)
    ensures w.b.sender.lastAck <= w.a.receiver.Progress()
  {
    hide ConnInv, Inv, Faithful, InStep, FlowValid, AcksValid;
    LinkMeans(w.b.sender, w.a.receiver, Elements(w.b.out) + w.ba, Elements(w.a.out) + w.ab);
  }

  // ---- one round: the reader reads, a segment goes over, its acknowledgement comes back ----

  /** The reader reads everything, and everything queued goes on its way. */
  lemma Prepare(w: World) returns (v: World)
    requires Alive(w)
    ensures Path(w, v) && Alive(v) && v.a == w.a.(out := []) && v.ab == w.ab + Elements(w.a.out)
    ensures v.b == w.b.(receiver := v.b.receiver) && v.ba == w.ba
    ensures v.b.receiver.reasm.Next() < v.b.receiver.reasm.Limit()
  {
    hide LogValid, QueueValid, TimerValid, Genuine, Link, Reaches, StaysFor;
    PathSelf(w);
    var n: nat := w.b.receiver.reasm.out.Size();
    var e := Call(ConnOp.ReadOp(n));
    PathNext(w, w, false, e);
    var u := NextAt(w, false, e);
    assert u == w.(b := w.b.(receiver := ReadBy(w.b.receiver, n)));
    PathNext(w, u, true, Send);
    v := NextAt(u, true, Send);
    PathAlive(w, v);
  }

  lemma SendAway(w: World, u: World)
    requires Path(w, u)
    ensures CanAt(u, false, Send) && Path(w, NextAt(u, false, Send))
    ensures NextAt(u, false, Send) == u.(b := u.b.(out := []), ba := u.ba + Elements(u.b.out))
  {
    hide Good, Reaches, StaysFor;
    SwapGood(u);
    PathNext(w, u, false, Send);
  }

  /** What the peer's side of a round leaves: whatever it has on the way stays, and it stays fit or becomes so. */
  predicate PeerKept(w: World, v: World) {
    && Elements(w.b.out) + w.ba <= Elements(v.b.out) + v.ba
    && w.b.sender.lastAck <= v.b.sender.lastAck
    && (Fit(w.b) || w.b.sender.lastAck < v.b.sender.lastAck ==> Fit(v.b))
  }

  /** The reply is on its way, fresh, and tells the sender something new. */
  ghost predicate Replied(v: World, x: Packet) {
    && x in v.ba && Tells(x, v.b.receiver) && FreshFor(v.a, x)
    && v.a.sender.lastAck < v.b.receiver.Progress() <= v.a.sender.nextSeq
  }

  lemma ReplyFresh(u: World, v: World, x: Packet)
    requires Good(u) && Good(v) && v.a == u.a && v.b.receiver.Progress() == x.absAck && v.a.sender.lastAck < x.absAck
    requires u.b.sender.nextSeq <= x.abs
    ensures FreshFor(v.a, x) && v.b.receiver.Progress() <= v.a.sender.nextSeq
  {
    hide ConnInv, Inv, Faithful, InStep, FlowValid, AcksValid;
    LinkMeans(u.b.sender, u.a.receiver, Elements(u.b.out) + u.ba, Elements(u.a.out) + u.ab);
    LinkMeans(v.a.sender, v.b.receiver, Elements(v.a.out) + v.ab, Elements(v.b.out) + v.ba);
  }

  /** A waiting segment goes over and the reply goes on its way; or the peer stops on it, and all is done. */
  lemma GoOver(w: World, q: Packet) returns (v: World, x: Packet)
    requires Alive(w) && q in w.ab && Waiting(q, w.a, w.b)
    requires w.b.receiver.reasm.Next() < w.b.receiver.reasm.Limit()
    ensures Path(w, v) && v.a == w.a
    ensures BothDone(v) || (Alive(v) && Replied(v, x) && PeerKept(w, v))
  {
    hide ConnInv, Linked, Reaches, Can, Next, Fit;
    SwapGood(w);
    WaitingFresh(w, q);
    assert Can(w.Swap(), Arrive(q)) by { CanArrive(w.Swap(), q); }
    SegmentArrives(w.Swap(), q);
    PathSelf(w);
    PathNext(w, w, false, Arrive(q));
    var u := NextAt(w, false, Arrive(q));
    x := u.b.out[|w.b.out|];
    if !u.b.active {
      SwapGood(u);
      StoppedDelivers(u.Swap());
      v := u;
    } else {
      SendAway(w, u);
      v := NextAt(u, false, Send);
      PathAlive(w, v);
      assert x in u.b.out;
      ReplyFresh(w, v, x);
      SameFit(u.b, v.b);
    }
  }

  lemma SameFit(c: Connection, d: Connection)
    requires d == c.(out := d.out, receiver := d.receiver)
    ensures Fit(d) == Fit(c)
  {
  }

  lemma CanArrive(u: World, q: Packet)
    requires q in u.ba && u.a.active && FreshFor(u.a, q)
    ensures Can(u, Arrive(q))
  {
  }

  /** The reply comes back; or the sender stops on it, and all is done. */
  lemma ComeBack(w: World, x: Packet) returns (v: World)
    requires Alive(w) && Replied(w, x)
    ensures Path(w, v) && v.b == w.b && v.ba == w.ba
    ensures BothDone(v) || (Alive(v) && Fit(v.a) && w.a.sender.lastAck < v.a.sender.lastAck <= w.a.sender.nextSeq)
  {
    hide ConnInv, Linked, Reaches, Can, Next, Fit;
    CanArrive(w, x);
    AckArrives(w, x);
    PathSelf(w);
    PathNext(w, w, true, Arrive(x));
    v := NextAt(w, true, Arrive(x));
    ArrivalElsewhere(w, x);
    if v.a.active {
      PathAlive(w, v);
    } else {
      StoppedDelivers(v);
    }
  }

  lemma ArrivalElsewhere(w: World, x: Packet)
    requires Good(w) && Can(w, Arrive(x))
    ensures Next(w, Arrive(x)).ba == w.ba
  {
    hide Good, ConnectionInvariants.Step;
  }

  /** A waiting segment goes over and is acknowledged. */
  lemma Carry(w: World, q: Packet) returns (v: World)
    requires Alive(w) && q in Elements(w.a.out) + w.ab && Waiting(q, w.a, w.b)
    ensures Path(w, v)
    ensures BothDone(v) ||
            (&& Alive(v) && Fit(v.a) && PeerKept(w, v)
             && w.a.sender.lastAck < v.a.sender.lastAck <= w.a.sender.nextSeq)
  {
    hide Alive, Path, Fit, Replied;
    var w1 := Prepare(w);
    SameFit(w.b, w1.b);
    var w2, x := GoOver(w1, q);
    PathTrans(w, w1, w2);
    if BothDone(w2) {
      v := w2;
    } else {
      v := ComeBack(w2, x);
      PathTrans(w, w2, v);
    }
  }

  // ---- round after round ----

  lemma SentBound(w: World)
    requires Good(w)
    ensures w.a.sender.lastAck <= w.a.sender.nextSeq <= |w.a.sender.stream.written| + 2
    ensures w.a.sender.nextSeq <= w.a.sender.lastAck + MAX_WINDOW
  {
    hide LogValid, TimerValid, Genuine, Link;
    NextSeqBound(w.a.sender);
  }

  lemma AliveTries(w: World)
    requires Alive(w) && Fit(w.a)
    ensures KeepsTrying(w.a) && Good(w)
  {
    hide Linked, Inv;
    FitTries(w.a);
  }

  /** A fit sender gets everything its owner wrote delivered, and the end with it. */
  lemma {:induction false} Rounds(w: World) returns (v: World)
    requires Alive(w) && (Fit(w.a) || Done(w.a, w.b))
    ensures Path(w, v)
    ensures BothDone(v) || (Alive(v) && Done(v.a, v.b) && (Fit(w.b) ==> Fit(v.b)))
    decreases |w.a.sender.stream.written| + 2 - w.a.sender.lastAck
  {
    hide Good, Reaches, Fit, KeepsTrying;
    if Done(w.a, w.b) {
      PathSelf(w);
      v := w;
    } else {
      AliveTries(w);
      SentBound(w);
      var w1, q := Stir(w);
      var w2 := Carry(w1, q);
      PathTrans(w, w1, w2);
      if BothDone(w2) {
        v := w2;
      } else {
        v := Rounds(w2);
        PathTrans(w, w2, v);
      }
    }
  }

  // ---- both directions ----

  /** What is delivered stays delivered while nobody writes. */
  lemma DoneStays(w: World, v: World)
    requires Path(w, v)
    ensures Done(w.a, w.b) ==> Done(v.a, v.b)
    ensures Done(w.b, w.a) ==> Done(v.b, v.a)
  {
    hide Inv, Faithful, InStep, FlowValid, AcksValid, Reaches, ConnInv;
    LinkMeans(v.a.sender, v.b.receiver, Elements(v.a.out) + v.ab, Elements(v.b.out) + v.ba);
    LinkMeans(v.b.sender, v.a.receiver, Elements(v.b.out) + v.ba, Elements(v.a.out) + v.ab);
  }

  /** The first side is fit to go on, or has nothing left to deliver. */
  predicate Settled(w: World) {
    Fit(w.a) || Done(w.a, w.b)
  }

  lemma RestingFit(w: World)
    requires Good(w) && w.a.sender.outstanding == []
    ensures Fit(w.a)
  {
    hide LogValid, QueueValid, Genuine, Link;
  }

  /** The first attempt of one side. */
  lemma Kick(w: World) returns (v: World)
    requires Alive(w) && KeepsTrying(w.a)
    ensures Path(w, v)
    ensures BothDone(v) ||
            (&& Alive(v) && Settled(v) && PeerKept(w, v)
             && v.a.sender.lastAck <= w.a.sender.lastAck + MAX_WINDOW)
  {
    hide Good, Reaches, Fit, KeepsTrying;
    if Done(w.a, w.b) {
      PathSelf(w);
      v := w;
    } else {
      var w1, q := Stir(w);
      SentBound(w1);
      v := Carry(w1, q);
      PathTrans(w, w1, v);
    }
  }

  /** The second side's segment, on the way since before the first side's attempt, goes over. */
  lemma SecondKick(w: World, v: World, q: Packet) returns (t: World)
    requires Alive(w) && Path(w, v) && Alive(v) && Settled(v) && PeerKept(w, v) && !Fit(v.b)
    requires q in Elements(w.b.out) + w.ba && Waiting(q, w.b, w.a)
    requires v.a.sender.lastAck <= w.a.sender.lastAck + MAX_WINDOW
    requires q.seg.header.ack ==> w.a.sender.lastAck <= q.absAck
    ensures Path(w, t)
    ensures BothDone(t) || (Alive(t) && Settled(t) && Settled(t.Swap()))
  {
    hide Alive, Path, Fit;
    SwapAlive(v);
    var u := Carry(v.Swap(), q);
    SwapPath(v.Swap(), u);
    t := u.Swap();
    DoneStays(v, t);
    PathTrans(w, v, t);
    if !BothDone(u) {
      SwapAlive(u);
    }
  }

  /** The first attempts of both sides: the second side's segment is on the queue before anything can open its window
      while its attempts are used up. */
  lemma KickBoth(w: World) returns (v: World)
    requires Alive(w) && KeepsTrying(w.a) && KeepsTrying(w.b)
    ensures Path(w, v)
    ensures BothDone(v) || (Alive(v) && Settled(v) && Settled(v.Swap()))
  {
    hide Alive, Path, Fit, KeepsTrying, Done;
    SwapAlive(w);
    if w.b.sender.outstanding == [] || Done(w.b, w.a) {
      v := Kick(w);
      DoneStays(w, v);
      if w.b.sender.outstanding == [] {
        AliveGood(w.Swap());
        RestingFit(w.Swap());
      }
    } else {
      var u, q := Stir(w.Swap());
      SwapPath(w.Swap(), u);
      SwapAlive(u);
      var w1 := u.Swap();
      v := Kick(w1);
      PathTrans(w, w1, v);
      if !BothDone(v) && !Settled(v.Swap()) {
        v := SecondKick(w1, v, q);
        PathTrans(w, w1, v);
      }
    }
  }

  lemma AliveGood(w: World)
    requires Alive(w)
    ensures Good(w)
  {
  }

  /** From every good state of two active sides that keep trying, whatever has been lost, some run delivers everything
      both owners wrote, and the ends of their streams. */
  lemma Recover(w: World) returns (v: World)
    requires Alive(w) && KeepsTrying(w.a) && KeepsTrying(w.b)
    ensures Path(w, v) && BothDone(v)
  {
    hide Alive, Path, Fit, KeepsTrying, Done;
    v := KickBoth(w);
    if !BothDone(v) {
      var w1 := v;
      v := Rounds(w1);
      PathTrans(w, w1, v);
      if !BothDone(v) {
        var w2 := v;
        DoneStays(w1, w2);
        SwapAlive(w2);
        var u := Rounds(w2.Swap());
        SwapPath(w2.Swap(), u);
        v := u.Swap();
        DoneStays(w2, v);
        PathTrans(w, w2, v);
      }
    }
  }

  /** So in particular after any run of the system, even if everything on the way is then lost. */
  lemma AlwaysRecoverable(isnA: U32, isnB: U32, caps: (nat, nat, nat, nat), rtoA: nat, rtoB: nat,
                          es: seq<(bool, Event)>)
    requires 0 < caps.0 && 0 < caps.1 && 0 < caps.2 && 0 < caps.3
    requires CanRun(Start(isnA, isnB, caps, rtoA, rtoB), es)
    requires var w := Network.Run(Start(isnA, isnB, caps, rtoA, rtoB), es);
             && w.a.active && w.b.active && 0 < w.a.rtTimeout && 0 < w.b.rtTimeout
             && KeepsTrying(w.a) && KeepsTrying(w.b)
    ensures var w0 := Start(isnA, isnB, caps, rtoA, rtoB);
            var w := Network.Run(w0, es);
            var lost := w.(ab := {}, ba := {});
            && Good(lost)
            && exists fs :: CanRun(lost, fs) &&
                            var v := Network.Run(lost, fs);
                            && v.b.receiver.reasm.out.written == AllSaid(w0, true, es)
                            && v.a.receiver.reasm.out.written == AllSaid(w0, false, es)
                            && v.b.receiver.reasm.out.ended == HasClosed(true, es)
                            && v.a.receiver.reasm.out.ended == HasClosed(false, es)
  {
    hide Good, CanRun, Network.Run, AllSaid, HasClosed, Start;
    var w0 := Start(isnA, isnB, caps, rtoA, rtoB);
    RunGood(w0, es);
    RunSaid(isnA, isnB, caps, rtoA, rtoB, true, es);
    RunSaid(isnA, isnB, caps, rtoA, rtoB, false, es);
    var w := Network.Run(w0, es);
    LoseAll(w);
    var lost := w.(ab := {}, ba := {});
    var v := Recover(lost);
    var fs :| CanRun(lost, fs) && Network.Run(lost, fs) == v;
    EndsTrue(v);
  }

  /** An inbound stream ends only if the outbound one did. */
  lemma EndsTrue(v: World)
    requires Good(v)
    ensures v.b.receiver.reasm.out.ended ==> v.a.sender.stream.ended
    ensures v.a.receiver.reasm.out.ended ==> v.b.sender.stream.ended
  {
    hide ConnInv, Inv, InStep, FlowValid, AcksValid;
  }

  lemma LoseAll(w: World)
    requires Good(w)
    ensures Good(w.(ab := {}, ba := {}))
  {
    hide ConnInv, Linked;
    var e := Drop(w.ab + w.ba);
    NextGood(w, e);
    assert Next(w, e) == w.(ab := {}, ba := {});
  }
}
