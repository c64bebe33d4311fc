/** The whole system: two endpoints, their owners, and everything ever sent between them. */
module Network {
  import opened Bytes
  import opened WrappingIntegers
  import opened Receiving
  import opened Sending
  import opened SenderInvariants
  import opened Connecting
  import opened ConnectionInvariants
  import opened ConnectionRuns
  import opened Links
  import opened Duplex
  import opened Owners

  /** `ab` and `ba` hold the packets sent each way and not lost: any of them may arrive at any time and any number of
      times, or never. */
  datatype World = World(a: Connection, b: Connection, ab: set<Packet>, ba: set<Packet>) {
    function Swap(): World {
      World(b, a, ba, ab)
    }
  }

  /** A call by the owner, the queue going out, a packet coming in, or packets lost on the way. */
  datatype Event = Call(op: ConnOp) | Send | Arrive(p: Packet) | Drop(lost: set<Packet>)

  ghost predicate Good(w: World) {
    && ConnInv(w.a) && ConnInv(w.b)
    && Linked(w.a, w.b, Elements(w.a.out) + w.ab, Elements(w.b.out) + w.ba)
  }

  /** At endpoint `a`: owners keep their side of the bargain, and packets arrive while they are fresh. Nothing is
      asked about windows, order, loss or repetition. */
  ghost predicate Can(w: World, e: Event) {
    match e
    case Call(op) => !op.Segment? && !op.Flush? && Permitted(w.a, op)
    case Send => true
    case Arrive(p) => p in w.ba && w.a.active && FreshFor(w.a, p)
    case Drop(_) => true
  }

  lemma ArrivalPermitted(w: World, p: Packet)
    requires Good(w) && Can(w, Arrive(p))
    ensures Permitted(w.a, Segment(p.seg))
  {
    hide LogValid, QueueValid, TimerValid, Genuine, Faithful, InStep, FlowValid, AcksValid, KeepsToWindow, Ignored;
    DeliverMove(p, w.b.sender, w.a.receiver, Elements(w.b.out) + w.ba, Elements(w.a.out) + w.ab);
  }

  ghost function Next(w: World, e: Event): World
    requires Good(w) && Can(w, e)
  {
    match e
    case Call(op) => w.(a := Step(w.a, op))
    case Send => w.(a := w.a.(out := []), ab := w.ab + Elements(w.a.out))
    case Arrive(p) => ArrivalPermitted(w, p); w.(a := Step(w.a, Segment(p.seg)))
    case Drop(lost) => w.(ab := w.ab - lost, ba := w.ba - lost)
  }

  lemma LinkedGrown(a: Connection, d: Connection, b: Connection, ab: set<Packet>, wb: set<Packet>)
    requires LinkedAfter(a, d, b, Elements(a.out) + ab, wb)
    ensures Linked(d, b, Elements(d.out) + ab, wb)
  {
    hide Link;
    assert d.out == a.out + d.out[|a.out|..];
    assert Elements(d.out) + ab == Elements(a.out) + ab + Elements(d.out[|a.out|..]);
  }

  lemma CallLinked(a: Connection, op: ConnOp, b: Connection, ab: set<Packet>, wb: set<Packet>)
    requires ConnInv(a) && Permitted(a, op) && !op.Segment? && !op.Flush?
    requires Linked(a, b, Elements(a.out) + ab, wb)
    ensures Linked(Step(a, op), b, Elements(Step(a, op).out) + ab, wb)
  {
    var wa := Elements(a.out) + ab;
    hide LogValid, TimerValid, Genuine, Link, FillAndQueue, TickBy, LinkedAfter;
    match op
    case Connect =>
      SelfAdvances(a.sender);
      FillCallLinked(a, a.sender, b, wa, wb);
      LinkedGrown(a, FillAndQueue(a), b, ab, wb);
    case WriteOp(data) =>
      WriteInv(a.sender, data);
      FillCallLinked(a, a.sender.(stream := a.sender.stream.Write(data)), b, wa, wb);
      LinkedGrown(a, WriteData(a, data), b, ab, wb);
    case EndOp =>
      EndInputInv(a.sender);
      FillCallLinked(a, a.sender.(stream := a.sender.stream.EndInput()), b, wa, wb);
      LinkedGrown(a, EndInputStream(a), b, ab, wb);
    case TickOp(ms) =>
      TickLinked(a, ms, b, wa, wb);
      LinkedGrown(a, TickBy(a, ms), b, ab, wb);
    case ReadOp(len) =>
      ReadMove(len, b.sender, a.receiver, wb, wa);
  }

  /** Every event keeps the whole system in order. */
  lemma NextGood(w: World, e: Event)
    requires Good(w) && Can(w, e)
    ensures Good(Next(w, e))
  {
    hide Inv, Link, Step, Permitted, Onward, KeepsToWindow;
    match e
    case Call(op) =>
      StepMoves(w.a, op);
      CallLinked(w.a, op, w.b, w.ab, Elements(w.b.out) + w.ba);
    case Send =>
      FlushStep(w.a);
      assert Elements([]) + (w.ab + Elements(w.a.out)) == Elements(w.a.out) + w.ab;
    case Arrive(p) =>
      ArrivalPermitted(w, p);
      StepMoves(w.a, Segment(p.seg));
      ArriveLinked(w, p);
    case Drop(lost) =>
      LinkedLess(w, lost);
  }

  /** Losing packets disturbs nothing. */
  lemma LinkedLess(w: World, lost: set<Packet>)
    requires Linked(w.a, w.b, Elements(w.a.out) + w.ab, Elements(w.b.out) + w.ba)
    ensures Linked(w.a, w.b, Elements(w.a.out) + (w.ab - lost), Elements(w.b.out) + (w.ba - lost))
  {
    hide Link;
    var wa, wb := Elements(w.a.out) + (w.ab - lost), Elements(w.b.out) + (w.ba - lost);
    FewerOnTheWay(w.a.sender, w.b.receiver, Elements(w.a.out) + w.ab, Elements(w.b.out) + w.ba, wa, wb);
    FewerOnTheWay(w.b.sender, w.a.receiver, Elements(w.b.out) + w.ba, Elements(w.a.out) + w.ab, wb, wa);
  }

  lemma ArriveLinked(w: World, p: Packet)
    requires Good(w) && Can(w, Arrive(p)) && Permitted(w.a, Segment(p.seg))
    ensures Linked(Step(w.a, Segment(p.seg)), w.b,
                   Elements(Step(w.a, Segment(p.seg)).out) + w.ab, Elements(w.b.out) + w.ba)
  {
    hide Inv, Link, Receive, KeepsToWindow, LinkedAfter;
    ReceiveLinked(w.a, p, w.b, Elements(w.a.out) + w.ab, Elements(w.b.out) + w.ba);
    LinkedGrown(w.a, Receive(w.a, p.seg), w.b, w.ab, Elements(w.b.out) + w.ba);
  }

  // ---- runs ----

  /** An event at the first endpoint, or the mirror image at the second. */
  ghost predicate CanAt(w: World, first: bool, e: Event) {
    Can(if first then w else w.Swap(), e)
  }

  lemma SwapGood(w: World)
    requires Good(w)
    ensures Good(w.Swap())
  {
    hide ConnInv, Link;
  }

  ghost function NextAt(w: World, first: bool, e: Event): World
    requires Good(w) && CanAt(w, first, e)
  {
    SwapGood(w);
    if first then Next(w, e) else Next(w.Swap(), e).Swap()
  }

  lemma NextAtGood(w: World, first: bool, e: Event)
    requires Good(w) && CanAt(w, first, e)
    ensures Good(NextAt(w, first, e))
  {
    hide Good, Can, Next;
    SwapGood(w);
    if first {
      NextGood(w, e);
    } else {
      NextGood(w.Swap(), e);
      SwapGood(Next(w.Swap(), e));
    }
  }

  ghost predicate CanRun(w: World, es: seq<(bool, Event)>)
    requires Good(w)
    decreases |es|
  {
    es != [] ==>
      && CanAt(w, es[0].0, es[0].1)
      && (NextAtGood(w, es[0].0, es[0].1);
          CanRun(NextAt(w, es[0].0, es[0].1), es[1..]))
  }

  ghost function Run(w: World, es: seq<(bool, Event)>): World
    requires Good(w) && CanRun(w, es)
    decreases |es|
  {
    if es == [] then w
    else
      NextAtGood(w, es[0].0, es[0].1);
      Run(NextAt(w, es[0].0, es[0].1), es[1..])
  }

  lemma {:induction false} RunGood(w: World, es: seq<(bool, Event)>)
    requires Good(w) && CanRun(w, es)
    ensures Good(Run(w, es))
    decreases |es|
  {
    hide Good, CanAt, NextAt;
    if es != [] {
      NextAtGood(w, es[0].0, es[0].1);
      RunGood(NextAt(w, es[0].0, es[0].1), es[1..]);
    }
  }

  // ---- what the owners said and heard ----

  function Side(w: World, first: bool): Connection {
    if first then w.a else w.b
  }

  ghost function SaidAt(w: World, first: bool, e: (bool, Event)): seq<Byte>
    requires Good(w)
  {
    if e.0 == first && e.1.Call? then Said(Side(w, first), e.1.op) else []
  }

  ghost function HeardAt(w: World, first: bool, e: (bool, Event)): seq<Byte>
    requires Good(w)
  {
    if e.0 == first && e.1.Call? then Heard(Side(w, first), e.1.op) else []
  }

  predicate EndsAt(first: bool, e: (bool, Event)) {
    e == (first, Call(EndOp))
  }

  /** Everything the owner of one side wrote and had taken, in order. */
  ghost function AllSaid(w: World, first: bool, es: seq<(bool, Event)>): seq<Byte>
    requires Good(w) && CanRun(w, es)
    decreases |es|
  {
    if es == [] then []
    else
      NextAtGood(w, es[0].0, es[0].1);
      SaidAt(w, first, es[0]) + AllSaid(NextAt(w, es[0].0, es[0].1), first, es[1..])
  }

  /** Everything the owner of one side read, in order. */
  ghost function AllHeard(w: World, first: bool, es: seq<(bool, Event)>): seq<Byte>
    requires Good(w) && CanRun(w, es)
    decreases |es|
  {
    if es == [] then []
    else
      NextAtGood(w, es[0].0, es[0].1);
      HeardAt(w, first, es[0]) + AllHeard(NextAt(w, es[0].0, es[0].1), first, es[1..])
  }

  predicate HasClosed(first: bool, es: seq<(bool, Event)>) {
    (first, Call(EndOp)) in es
  }

  /** From `c` to `d` the owner said `said`, closed the outbound stream or not, and heard `heard`. */
  ghost predicate Exchanged(c: Connection, d: Connection, said: seq<Byte>, closed: bool, heard: seq<Byte>) {
    && c.receiver.reasm.out.WellFormed() && d.receiver.reasm.out.WellFormed()
    && Owned(c, d, said, closed, |heard|)
    && heard == d.receiver.reasm.out.written[c.receiver.reasm.out.read..d.receiver.reasm.out.read]
  }

  lemma CallExchanged(c: Connection, op: ConnOp)
    requires ConnInv(c) && Permitted(c, op)
    ensures Exchanged(c, Step(c, op), Said(c, op), op.EndOp?, Heard(c, op))
  {
    hide Inv, Step, Permitted, Onward, Emits;
    StepMoves(c, op);
    StepOwned(c, op);
  }

  lemma NextExchanged(w: World, e: Event)
    requires Good(w) && Can(w, e)
    ensures Exchanged(w.a, Next(w, e).a, SaidAt(w, true, (true, e)), EndsAt(true, (true, e)),
                      HeardAt(w, true, (true, e)))
    ensures Next(w, e).b == w.b
  {
    hide Inv, Linked, Step, Permitted, Exchanged;
    match e
    case Call(op) => CallExchanged(w.a, op);
    case Arrive(p) =>
      ArrivalPermitted(w, p);
      CallExchanged(w.a, Segment(p.seg));
    case _ => SelfExchanged(w.a, Next(w, e).a);
  }

  lemma SelfExchanged(c: Connection, d: Connection)
    requires c.receiver.reasm.out.WellFormed() && d.receiver == c.receiver && d.sender == c.sender
    ensures Exchanged(c, d, [], false, [])
  {
  }

  lemma ExchangedOn(c: Connection, d: Connection, e: Connection, said: seq<Byte>, closed: bool, heard: seq<Byte>,
                    said': seq<Byte>, closed': bool, heard': seq<Byte>)
    requires Exchanged(c, d, said, closed, heard) && Exchanged(d, e, said', closed', heard')
    ensures Exchanged(c, e, said + said', closed || closed', heard + heard')
  {
  }

  lemma NextAtExchanged(w: World, first: bool, e: (bool, Event))
    requires Good(w) && CanAt(w, e.0, e.1)
    ensures Exchanged(Side(w, first), Side(NextAt(w, e.0, e.1), first), SaidAt(w, first, e), EndsAt(first, e),
                      HeardAt(w, first, e))
  {
    hide ConnInv, Linked, Can, Next, Exchanged;
    SwapGood(w);
    NextExchanged(if e.0 then w else w.Swap(), e.1);
    SideWellFormed(w);
    if e.0 != first {
      SelfExchanged(Side(w, first), Side(NextAt(w, e.0, e.1), first));
    }
  }

  lemma SideWellFormed(w: World)
    requires Good(w)
    ensures w.a.receiver.reasm.out.WellFormed() && w.b.receiver.reasm.out.WellFormed()
  {
    hide Linked, Inv;
  }

  /** Over any run a side's outbound stream grows by what its owner said and ends if the owner ends it, and what the
      owner heard is what was next to be read of the inbound one. */
  lemma {:induction false} RunExchanged(w: World, first: bool, es: seq<(bool, Event)>)
    requires Good(w) && CanRun(w, es)
    ensures Exchanged(Side(w, first), Side(Run(w, es), first), AllSaid(w, first, es), HasClosed(first, es),
                      AllHeard(w, first, es))
    decreases |es|
  {
    hide Good, CanAt, NextAt, SaidAt, HeardAt, Exchanged, Side;
    if es == [] {
      SideStays(w, first);
    } else {
      var e := es[0];
      NextAtGood(w, e.0, e.1);
      NextAtExchanged(w, first, e);
      var v := NextAt(w, e.0, e.1);
      RunExchanged(v, first, es[1..]);
      ExchangedOn(Side(w, first), Side(v, first), Side(Run(w, es), first), SaidAt(w, first, e), EndsAt(first, e),
                  HeardAt(w, first, e), AllSaid(v, first, es[1..]), HasClosed(first, es[1..]),
                  AllHeard(v, first, es[1..]));
      assert es == [e] + es[1..];
    }
  }

  lemma SideStays(w: World, first: bool)
    requires Good(w)
    ensures Exchanged(Side(w, first), Side(w, first), [], false, [])
  {
    hide Good, Exchanged;
    SideWellFormed(w);
    SelfExchanged(Side(w, first), Side(w, first));
  }

  /** What `y` has received from `x`: a prefix of what `x`'s owner wrote; once ended, all of it; and what `x` takes
      as acknowledged was received, what was received had been sent. */
  ghost predicate Delivered(x: Connection, y: Connection) {
    && y.receiver.reasm.out.written <= x.sender.stream.written
    && (y.receiver.reasm.out.ended ==> x.sender.stream.ended && y.receiver.reasm.out.written == x.sender.stream.written)
    && (!y.receiver.reasm.out.error ==> x.sender.lastAck <= y.receiver.AbsAck() <= x.sender.nextSeq)
    && (forall k :: 0 <= k < |x.sender.sent| - |x.sender.outstanding| ==>
                      x.sender.sent[k].End() <= y.receiver.Progress())
  }

  /** Every segment `x` ever sent, and everything on its way, fits the window of `y`, save for one-number probes of a
      shut window. */
  ghost predicate WithinWindow(x: Connection, y: Connection, way: set<Packet>) {
    forall p :: p in x.sender.sent || p in way ==> Fits(p, y.receiver)
  }

  ghost function Start(isnA: U32, isnB: U32, caps: (nat, nat, nat, nat), rtoA: nat, rtoB: nat): (w: World)
    requires 0 < caps.0 && 0 < caps.1 && 0 < caps.2 && 0 < caps.3
    ensures Good(w)
  {
    NewConnectionInv(isnA, caps.0, caps.1, rtoA);
    NewConnectionInv(isnB, caps.2, caps.3, rtoB);
    NewLink(isnA, caps.0, rtoA, caps.3);
    NewLink(isnB, caps.2, rtoB, caps.1);
    hide ConnInv, Link;
    World(NewConnection(isnA, caps.0, caps.1, rtoA), NewConnection(isnB, caps.2, caps.3, rtoB), {}, {})
  }

  /** What reached `y`, against what was said on the other side: its inbound stream and what its owner heard are
      prefixes of that, and once it has ended the other owner had closed and all of it is there. */
  predicate Carried(y: Connection, said: seq<Byte>, closed: bool, heard: seq<Byte>) {
    && y.receiver.reasm.out.written <= said && heard <= y.receiver.reasm.out.written
    && |heard| == y.receiver.reasm.out.read
    && (y.receiver.reasm.out.ended ==> closed && y.receiver.reasm.out.written == said)
  }

  /** End-to-end safety: however the network loses, repeats and reorders, after every run what each owner read is a
      prefix of what the other wrote, acknowledgements have told the truth, and no packet on its way violates the window
      it was sent into. */
  lemma EndToEnd(isnA: U32, isnB: U32, caps: (nat, nat, nat, nat), rtoA: nat, rtoB: nat, es: seq<(bool, Event)>)
    requires 0 < caps.0 && 0 < caps.1 && 0 < caps.2 && 0 < caps.3
    requires CanRun(Start(isnA, isnB, caps, rtoA, rtoB), es)
    ensures var w0 := Start(isnA, isnB, caps, rtoA, rtoB);
            var w := Run(w0, es);
            && Carried(w.b, AllSaid(w0, true, es), HasClosed(true, es), AllHeard(w0, false, es))
            && Carried(w.a, AllSaid(w0, false, es), HasClosed(false, es), AllHeard(w0, true, es))
            && Delivered(w.a, w.b) && Delivered(w.b, w.a)
            && WithinWindow(w.a, w.b, w.ab) && WithinWindow(w.b, w.a, w.ba)
  {
    hide Run, CanRun, Start, AllSaid, AllHeard, HasClosed, Exchanged;
    var w0 := Start(isnA, isnB, caps, rtoA, rtoB);
    RunGood(w0, es);
    var w := Run(w0, es);
    hide ConnInv, Inv, Faithful, InStep, AcksValid, Fits, Genuine;
    GoodDelivers(w.a, w.b, Elements(w.a.out) + w.ab, Elements(w.b.out) + w.ba);
    GoodDelivers(w.b, w.a, Elements(w.b.out) + w.ba, Elements(w.a.out) + w.ab);
    RunExchanged(w0, true, es);
    RunExchanged(w0, false, es);
    StartBlank(isnA, isnB, caps, rtoA, rtoB);
    BlankCarried(w0.a, w.a, w0.b, w.b, AllSaid(w0, true, es), HasClosed(true, es), AllHeard(w0, true, es),
                 AllSaid(w0, false, es), HasClosed(false, es), AllHeard(w0, false, es));
  }

  /** Nothing has been said or heard yet. */
  predicate Blank(c: Connection) {
    && c.sender.stream.written == [] && !c.sender.stream.ended
    && c.receiver.reasm.out.written == [] && c.receiver.reasm.out.read == 0
  }

  lemma StartBlank(isnA: U32, isnB: U32, caps: (nat, nat, nat, nat), rtoA: nat, rtoB: nat)
    requires 0 < caps.0 && 0 < caps.1 && 0 < caps.2 && 0 < caps.3
    ensures Blank(Start(isnA, isnB, caps, rtoA, rtoB).a) && Blank(Start(isnA, isnB, caps, rtoA, rtoB).b)
  {
  }

  /** So after any run from the start a side's outbound stream is what its owner said, and has ended if and only if the
      owner closed it. */
  lemma RunSaid(isnA: U32, isnB: U32, caps: (nat, nat, nat, nat), rtoA: nat, rtoB: nat, first: bool,
                es: seq<(bool, Event)>)
    requires 0 < caps.0 && 0 < caps.1 && 0 < caps.2 && 0 < caps.3
    requires CanRun(Start(isnA, isnB, caps, rtoA, rtoB), es)
    ensures var w0 := Start(isnA, isnB, caps, rtoA, rtoB);
            var s := Side(Run(w0, es), first).sender.stream;
            s.written == AllSaid(w0, first, es) && (s.ended <==> HasClosed(first, es))
  {
    hide Run, CanRun, Start, AllSaid, AllHeard, HasClosed;
    RunExchanged(Start(isnA, isnB, caps, rtoA, rtoB), first, es);
    StartBlank(isnA, isnB, caps, rtoA, rtoB);
  }

  lemma BlankCarried(a0: Connection, a: Connection, b0: Connection, b: Connection, saidA: seq<Byte>, closedA: bool,
                     heardA: seq<Byte>, saidB: seq<Byte>, closedB: bool, heardB: seq<Byte>)
    requires Blank(a0) && Blank(b0) && Delivered(a, b) && Delivered(b, a)
    requires Exchanged(a0, a, saidA, closedA, heardA) && Exchanged(b0, b, saidB, closedB, heardB)
    ensures a.sender.stream.written == saidA && b.sender.stream.written == saidB
    ensures Carried(b, saidA, closedA, heardB) && Carried(a, saidB, closedB, heardA)
  {
  }

  lemma GoodDelivers(x: Connection, y: Connection, wx: set<Packet>, wy: set<Packet>)
    requires Link(x.sender, y.receiver, wx, wy)
    ensures Delivered(x, y)
  {
    LinkMeans(x.sender, y.receiver, wx, wy);
    hide Faithful, InStep, FlowValid, AcksValid, TimerValid, Genuine;
    forall k | 0 <= k < |x.sender.sent| - |x.sender.outstanding|
      ensures x.sender.sent[k].End() <= y.receiver.Progress()
    {
      SentBeforeFront(x.sender, k);
    }
  }

  lemma {:induction false} SentBeforeFront(s: Sender, k: nat)
    requires LogValid(s) && QueueValid(s) && k < |s.sent| - |s.outstanding|
    ensures s.sent[k].End() <= s.Front()
    decreases |s.sent| - k
  {
    hide CarriesSlice;
    if k + 1 < |s.sent| {
      assert Entry(s.sent, k + 1, s.isn, s.stream.written, s.stream.ended);
      if k + 1 < |s.sent| - |s.outstanding| {
        SentBeforeFront(s, k + 1);
      }
    }
  }

  /** Streams shorter than 2^31 need no assumption on the age of packets: every arrival is fresh. */
  lemma ShortStreamsFresh(w: World, p: Packet)
    requires Good(w) && |w.a.sender.stream.written| + 2 <= TWO31 && |w.b.sender.stream.written| + 2 <= TWO31
    ensures FreshFor(w.a, p)
  {
    hide LogValid, QueueValid, TimerValid, Genuine, Faithful, InStep, FlowValid, AcksValid;
    var wa, wb := Elements(w.a.out) + w.ab, Elements(w.b.out) + w.ba;
    LinkMeans(w.b.sender, w.a.receiver, wb, wa);
    LinkMeans(w.a.sender, w.b.receiver, wa, wb);
    NextSeqBound(w.a.sender);
    NextSeqBound(w.b.sender);
  }
}
