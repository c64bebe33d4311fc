/** One direction of a connection: a sender, the peer's receiver, and a network that loses, repeats and reorders. */
module Links {
  import opened Bytes
  import opened WrappingIntegers
  import opened Segments
  import opened Reassembly
  import opened Receiving
  import opened Sending
  import opened SenderInvariants

  /** The receiver has room for the payload, or it is a one-number probe of a shut window. */
  predicate Fits(p: Packet, r: Receiver) {
    || Bare(p)
    || p.abs - 1 + |p.seg.payload| <= r.reasm.Limit()
    || (|p.seg.payload| <= 1 && p.abs - 1 <= r.reasm.Next())
  }

  /** Acknowledging `absAck` with `win` more to come stays within the reader's room, or all was received. */
  predicate RoomFor(absAck: nat, win: nat, s: Sender, r: Receiver) {
    absAck + win <= r.reasm.Limit() + 1 || (r.reasm.out.ended && absAck == |s.stream.written| + 2)
  }

  /** An acknowledgement this receiver really gave. */
  predicate TrueAck(p: Packet, s: Sender, r: Receiver) {
    && 1 <= p.absAck <= r.Progress()
    && p.seg.header.ackno == Wrap(p.absAck, s.isn)
    && RoomFor(p.absAck, p.seg.header.win, s, r)
  }

  /** What the receiver holds came from the sender's stream, and its end is the stream's end. */
  ghost predicate Faithful(s: Sender, r: Receiver) {
    && r.WellFormed() && r.reasm.InWindow()
    && r.reasm.Agrees(s.stream.written)
    && (r.isn.Some? ==> r.isn.value == s.isn)
    && (r.listening ==> r.reasm.Next() == 0 && r.reasm.held == {} && r.reasm.eof.None? && !r.reasm.out.ended)
    && (r.reasm.eof.Some? ==>
          s.stream.ended && r.reasm.eof.value == |s.stream.written| && s.nextSeq == |s.stream.written| + 2)
    && (r.reasm.out.ended <==> r.reasm.eof == Some(r.reasm.Next()))
  }

  /** Nothing is received before it is sent, and nothing counts as acknowledged before it is received. */
  ghost predicate InStep(s: Sender, r: Receiver) {
    && (forall i: nat :: r.reasm.Has(i) ==> i + 1 < s.nextSeq)
    && (!r.listening ==> 0 < s.nextSeq)
    && s.lastAck <= r.Progress()
    && (s.lastAck == 0 ==> s.window == 1)
    && (0 < s.lastAck ==> RoomFor(s.lastAck, s.window, s, r))
  }

  /** Everything on its way to the receiver is genuine and fits. */
  ghost predicate FlowValid(s: Sender, r: Receiver, fwd: set<Packet>) {
    && (forall p :: p in s.sent ==> Fits(p, r))
    && (forall p :: p in fwd ==> Genuine(p, s) && Fits(p, r))
  }

  /** Everything on its way back acknowledges truly. */
  ghost predicate AcksValid(s: Sender, r: Receiver, back: set<Packet>) {
    forall p :: p in back && p.seg.header.ack ==> TrueAck(p, s, r)
  }

  ghost predicate Link(s: Sender, r: Receiver, fwd: set<Packet>, back: set<Packet>) {
    Inv(s) && Faithful(s, r) && InStep(s, r) && FlowValid(s, r, fwd) && AcksValid(s, r, back)
  }

  /** What is delivered is a prefix of what was written, an ended delivery is the whole of an ended stream,
      and acknowledgements never lie. */
  lemma LinkMeans(s: Sender, r: Receiver, fwd: set<Packet>, back: set<Packet>)
    requires Link(s, r, fwd, back)
    ensures r.reasm.out.written <= s.stream.written
    ensures r.reasm.out.ended ==> s.stream.ended && r.reasm.out.written == s.stream.written
    ensures s.Front() <= s.lastAck <= r.Progress() <= s.nextSeq
    ensures s.nextSeq - r.Progress() <= MAX_WINDOW
  {
    hide LogValid, TimerValid, Genuine, Fits, TrueAck, RoomFor;
    if r.reasm.Next() > 0 {
      assert r.reasm.Has(r.reasm.Next() - 1);
    }
  }

  /** What is lost on the way disturbs nothing. */
  lemma FewerOnTheWay(s: Sender, r: Receiver, fwd: set<Packet>, back: set<Packet>, fwd': set<Packet>,
                      back': set<Packet>)
    requires Link(s, r, fwd, back) && fwd' <= fwd && back' <= back
    ensures Link(s, r, fwd', back')
  {
    hide Inv, Faithful, InStep, Genuine, Fits, TrueAck;
  }

  lemma NewLink(isn: U32, capacity: nat, rto: nat, capacity': nat)
    requires 0 < capacity && 0 < capacity'
    ensures Link(NewSender(isn, capacity, rto), NewReceiver(capacity'), {}, {})
  {
    NewSenderInv(isn, capacity, rto);
    hide Inv;
  }

  // ---- the sender moves ----

  /** Growth of the sender keeps what the receiver knows true. */
  lemma AdvanceKeepsFaithful(s: Sender, t: Sender, r: Receiver)
    requires Inv(t) && Advances(s, t) && Faithful(s, r)
    ensures Faithful(t, r)
  {
    hide QueueValid, TimerValid, Genuine;
    if r.reasm.eof.Some? {
      NextSeqBound(t);
    }
  }

  lemma NextSeqBound(s: Sender)
    requires Inv(s)
    ensures s.nextSeq <= |s.stream.written| + 2
  {
    hide Entry, QueueValid, TimerValid, Genuine;
  }

  lemma AdvanceKeepsAcks(s: Sender, t: Sender, r: Receiver, back: set<Packet>)
    requires Advances(s, t) && AcksValid(s, r, back) && Faithful(s, r)
    ensures AcksValid(t, r, back)
  {
    forall p | p in back && p.seg.header.ack
      ensures TrueAck(p, t, r)
    {
      RoomStays(p.absAck, p.seg.header.win, s, t, r, r);
    }
  }

  lemma RoomStays(absAck: nat, win: nat, s: Sender, t: Sender, r: Receiver, q: Receiver)
    requires RoomFor(absAck, win, s, r) && Faithful(s, r) && Advances(s, t)
    requires r.reasm.Limit() <= q.reasm.Limit() && (r.reasm.out.ended ==> q.reasm.out.ended)
    ensures RoomFor(absAck, win, t, q)
  {
  }

  lemma AdvanceKeepsFlow(s: Sender, t: Sender, r: Receiver, fwd: set<Packet>)
    requires Advances(s, t) && (forall p :: p in fwd ==> Genuine(p, s))
    ensures forall p :: p in fwd ==> Genuine(p, t)
  {
    forall p | p in fwd
      ensures Genuine(p, t)
    {
      GenuineStays(p, s, t);
    }
  }

  /** A move of the sender that sends nothing new and takes no acknowledgement. */
  lemma QuietMove(s: Sender, t: Sender, r: Receiver, fwd: set<Packet>, back: set<Packet>)
    requires Link(s, r, fwd, back)
    requires Inv(t) && Advances(s, t) && t.sent == s.sent && t.lastAck == s.lastAck && t.window == s.window
    ensures Link(t, r, fwd, back)
  {
    AdvanceKeepsFaithful(s, t, r);
    AdvanceKeepsAcks(s, t, r, back);
    AdvanceKeepsFlow(s, t, r, fwd);
    if 0 < s.lastAck {
      RoomStays(s.lastAck, s.window, s, t, r, r);
    }
    hide Inv, Faithful, Genuine, Fits, TrueAck, RoomFor;
  }

  /** The window discipline: what the window admits, the receiver has room for. */
  lemma AdmittedFits(s: Sender, t: Sender, r: Receiver, p: Packet)
    requires Faithful(t, r) && InStep(s, r)
    requires Advances(s, t) && Admitted(p, s.lastAck, s.window)
    requires p.seg.header.syn ==> Bare(p)
    requires !p.seg.header.syn ==> CarriesSlice(p, t.stream.written, t.stream.ended)
    requires s.stream.written == t.stream.written
    ensures Fits(p, r)
  {
  }

  lemma FillMove(s: Sender, t: Sender, r: Receiver, fwd: set<Packet>, back: set<Packet>)
    requires Link(s, r, fwd, back) && Filled(s, t)
    ensures Link(t, r, fwd, back)
    ensures forall p :: p in t.out ==> p in s.out || Fits(p, r)
  {
    AdvanceKeepsFaithful(s, t, r);
    AdvanceKeepsAcks(s, t, r, back);
    AdvanceKeepsFlow(s, t, r, fwd);
    if 0 < s.lastAck {
      RoomStays(s.lastAck, s.window, s, t, r, r);
    }
    forall p | p in t.sent
      ensures Fits(p, r)
    {
      var k :| 0 <= k < |t.sent| && t.sent[k] == p;
      if k < |s.sent| {
        assert p == s.sent[k];
      } else {
        assert Entry(t.sent, k, t.isn, t.stream.written, t.stream.ended);
        AdmittedFits(s, t, r, p);
      }
    }
    forall p | p in t.out
      ensures p in s.out || Fits(p, r)
    {
      var k :| 0 <= k < |t.out| && t.out[k] == p;
      if |s.out| <= k {
        assert t.out[|s.out|..][k - |s.out|] == p;
        assert p in t.sent[|s.sent|..];
      }
    }
  }

  lemma SynMove(s: Sender, r: Receiver, fwd: set<Packet>, back: set<Packet>)
    requires Link(s, r, fwd, back) && s.State().Closed?
    ensures var t := SendSegment(s, SynSegment(s.isn));
            Link(t, r, fwd, back) && forall p :: p in t.out ==> p in s.out || Fits(p, r)
  {
    var t := SendSegment(s, SynSegment(s.isn));
    SendSynInv(s);
    AdvanceKeepsFaithful(s, t, r);
    AdvanceKeepsAcks(s, t, r, back);
    AdvanceKeepsFlow(s, t, r, fwd);
    if 0 < s.lastAck {
      RoomStays(s.lastAck, s.window, s, t, r, r);
    }
    var p := Packet(SynSegment(s.isn), s.nextSeq, 0);
    assert Fits(p, r);
    hide Inv, Faithful, Genuine, Fits, TrueAck, RoomFor;
  }

  lemma FillWindowMove(s: Sender, r: Receiver, fwd: set<Packet>, back: set<Packet>)
    requires Link(s, r, fwd, back) && !s.stream.error
    ensures var t := FillWindow(s);
            Link(t, r, fwd, back) && forall p :: p in t.out ==> p in s.out || Fits(p, r)
  {
    hide LogValid, TimerValid, Genuine, Faithful, InStep, Fits, TrueAck, Filled;
    FillWindowInv(s);
    if s.State().Closed? {
      SynMove(s, r, fwd, back);
    } else {
      FillMove(s, FillWindow(s), r, fwd, back);
    }
  }

  /** Where a segment goes the moment it is sent: into the receiver's room, or one number into a shut window exactly at
      what the receiver expects next. */
  predicate Aimed(p: Packet, r: Receiver) {
    || Bare(p)
    || p.abs - 1 + |p.seg.payload| <= r.reasm.Limit()
    || (p.seg.Length() == 1 && p.abs == r.Progress())
  }

  lemma {:induction false} NewStartsBeyond(s: Sender, t: Sender, k: nat)
    requires LogValid(s) && LogValid(t) && s.sent <= t.sent && |s.sent| <= k < |t.sent|
    ensures s.nextSeq <= t.sent[k].abs
  {
    hide CarriesSlice;
    assert Entry(t.sent, k, t.isn, t.stream.written, t.stream.ended);
    if |s.sent| < k {
      NewStartsBeyond(s, t, k - 1);
    } else if k > 0 {
      assert t.sent[k - 1] == s.sent[k - 1];
    }
  }

  /** Filling the window sends nothing the receiver has no room for, save exactly the next number into a shut window. */
  lemma FillWindowAims(s: Sender, r: Receiver, fwd: set<Packet>, back: set<Packet>, k: nat)
    requires Link(s, r, fwd, back) && !s.stream.error && |s.sent| <= k < |FillWindow(s).sent|
    ensures Aimed(FillWindow(s).sent[k], r)
  {
    hide TimerValid, Genuine, TrueAck, Fits, FillWindow;
    var t := FillWindow(s);
    FillWindowInv(s);
    assert Entry(t.sent, k, t.isn, t.stream.written, t.stream.ended);
    if s.nextSeq == 0 {
      LogStart(s);
      assert t.sent[k] == Packet(SynSegment(s.isn), 0, 0);
    } else {
      LinkMeans(s, r, fwd, back);
      NewStartsBeyond(s, t, k);
      AdmittedAims(s, r, t.sent[k]);
    }
  }

  lemma AdmittedAims(s: Sender, r: Receiver, p: Packet)
    requires Faithful(s, r) && InStep(s, r) && Admitted(p, s.lastAck, s.window)
    requires s.nextSeq <= p.abs && s.lastAck <= r.Progress() <= s.nextSeq
    requires Bare(p) || CarriesSlice(p, s.stream.written, s.stream.ended)
    ensures Aimed(p, r)
  {
    hide Reassembler.Agrees, Reassembler.InWindow, Reassembler.Has;
  }

  lemma TickMove(s: Sender, ms: nat, r: Receiver, fwd: set<Packet>, back: set<Packet>)
    requires Link(s, r, fwd, back)
    ensures Elapse(s, ms).timer.Expired() ==> s.outstanding != []
    ensures var t := Tick(s, ms);
            Link(t, r, fwd, back) && forall p :: p in t.out ==> p in s.out || Fits(p, r)
  {
    hide LogValid, TimerValid, Genuine, Faithful, InStep, Fits, TrueAck;
    TickInv(s, ms);
    var t := Tick(s, ms);
    QuietMove(s, t, r, fwd, back);
    forall p | p in t.out
      ensures p in s.out || Fits(p, r)
    {
      if p !in s.out {
        var q := s.sent[|s.sent| - |s.outstanding|];
        assert p.seg == q.seg && p.abs == q.abs;
        SameFits(q, p, r);
      }
    }
  }

  lemma SameFits(p: Packet, q: Packet, r: Receiver)
    requires Fits(p, r) && q.seg.payload == p.seg.payload && q.seg.header.fin == p.seg.header.fin && q.abs == p.abs
    ensures Fits(q, r)
  {
  }

  lemma EmptyMove(s: Sender, r: Receiver, fwd: set<Packet>, back: set<Packet>)
    requires Link(s, r, fwd, back)
    ensures var t := SendEmpty(s);
            Link(t, r, fwd, back) && forall p :: p in t.out ==> p in s.out || Fits(p, r)
  {
    hide LogValid, TimerValid, Genuine, Faithful, InStep, TrueAck;
    SendEmptyInv(s);
    QuietMove(s, SendEmpty(s), r, fwd, back);
  }

  /** An acknowledgement of the receiver's, not older than half the number space, is read for what it is. */
  lemma AckRecovered(p: Packet, s: Sender, r: Receiver, fwd: set<Packet>, back: set<Packet>)
    requires Link(s, r, fwd, back) && p in back && p.seg.header.ack
    requires s.lastAck - p.absAck <= TWO31
    ensures Unwrap(p.seg.header.ackno, s.isn, s.lastAck) == p.absAck <= s.nextSeq
  {
    LinkMeans(s, r, fwd, back);
    hide Inv, Faithful, InStep, Unwrap, Wrap;
    UnwrapRecovers(p.absAck, s.isn, s.lastAck);
  }

  lemma AckMove(p: Packet, s: Sender, r: Receiver, fwd: set<Packet>, back: set<Packet>)
    requires Link(s, r, fwd, back) && p in back && p.seg.header.ack
    requires s.lastAck - p.absAck <= TWO31
    ensures Link(AckReceived(s, p.seg.header.ackno, p.seg.header.win), r, fwd, back)
  {
    var t := AckReceived(s, p.seg.header.ackno, p.seg.header.win);
    AckRecovered(p, s, r, fwd, back);
    AckReceivedInv(s, p.seg.header.ackno, p.seg.header.win);
    AdvanceKeepsFaithful(s, t, r);
    AdvanceKeepsAcks(s, t, r, back);
    AdvanceKeepsFlow(s, t, r, fwd);
    assert TrueAck(p, s, r);
    RoomStays(p.absAck, p.seg.header.win, s, t, r, r);
    if 0 < s.lastAck {
      RoomStays(s.lastAck, s.window, s, t, r, r);
    }
    hide Inv, Faithful, Genuine, Fits, RoomFor, Unwrap, AckReceived;
  }

  // ---- the receiver moves ----

  /** Room, progress and the end only grow. */
  predicate Proceeds(r: Receiver, q: Receiver) {
    && r.reasm.Limit() <= q.reasm.Limit() && r.reasm.Next() <= q.reasm.Next()
    && r.Progress() <= q.Progress() && (r.reasm.out.ended ==> q.reasm.out.ended)
  }

  lemma ReceiverMove(s: Sender, r: Receiver, q: Receiver, fwd: set<Packet>, back: set<Packet>)
    requires Link(s, r, fwd, back) && Proceeds(r, q) && Faithful(s, q)
    requires forall i: nat :: q.reasm.Has(i) ==> i + 1 < s.nextSeq
    requires !q.listening ==> 0 < s.nextSeq
    ensures Link(s, q, fwd, back)
  {
    hide Inv, Genuine;
    forall p | p in back && p.seg.header.ack
      ensures TrueAck(p, s, q)
    {
      RoomStays(p.absAck, p.seg.header.win, s, s, r, q);
    }
    if 0 < s.lastAck {
      RoomStays(s.lastAck, s.window, s, s, r, q);
    }
    hide Faithful, RoomFor, TrueAck;
  }

  lemma ReadMove(len: nat, s: Sender, r: Receiver, fwd: set<Packet>, back: set<Packet>)
    requires Link(s, r, fwd, back)
    ensures Link(s, ReadBy(r, len), fwd, back)
  {
    var q := ReadBy(r, len);
    hide Inv, Genuine, Fits, TrueAck, RoomFor;
    assert forall i: nat :: q.reasm.Has(i) == r.reasm.Has(i);
    ReceiverMove(s, r, q, fwd, back);
  }

  lemma ErrorMove(s: Sender, r: Receiver, fwd: set<Packet>, back: set<Packet>)
    requires Link(s, r, fwd, back)
    ensures Link(s, r.(reasm := r.reasm.(out := r.reasm.out.SetError())), fwd, back)
  {
    var q := r.(reasm := r.reasm.(out := r.reasm.out.SetError()));
    hide Inv, Genuine, Fits, TrueAck, RoomFor;
    assert forall i: nat :: q.reasm.Has(i) == r.reasm.Has(i);
    ReceiverMove(s, r, q, fwd, back);
  }

  // ---- delivery ----

  /** A segment not older than half the number space is read at the place it was sent from. */
  lemma StartRecovered(p: Packet, s: Sender, r: Receiver, fwd: set<Packet>, back: set<Packet>)
    requires Link(s, r, fwd, back) && p in fwd && !r.reasm.out.error && !r.listening
    requires r.Progress() - p.abs <= TWO31
    ensures DataStart(r, p.seg) == p.abs + if p.seg.header.syn then 1 else 0
  {
    hide Inv, InStep, AcksValid, Fits, CarriesSlice, Unwrap, Wrap, Advance, Reassembler.Agrees, Reassembler.InWindow;
    LinkMeans(s, r, fwd, back);
    var k := if p.seg.header.syn then 1 else 0;
    WrapShift(p.abs, s.isn, k);
    UnwrapRecovers(p.abs + k, s.isn, r.AbsAck());
  }

  /** A SYN opens the receiver with the sender's own initial number. */
  lemma OpenMove(p: Packet, s: Sender, r: Receiver, fwd: set<Packet>, back: set<Packet>)
    requires Link(s, r, fwd, back) && p in fwd && !r.reasm.out.error && r.listening && p.seg.header.syn
    ensures Opened(r, p.seg).isn == Some(s.isn)
    ensures Link(s, Opened(r, p.seg), fwd, back)
  {
    var q := Opened(r, p.seg);
    assert Genuine(p, s) && Wrap(0, s.isn) == s.isn;
    hide Inv, Fits, TrueAck, RoomFor, CarriesSlice;
    assert forall i: nat :: q.reasm.Has(i) == r.reasm.Has(i);
    ReceiverMove(s, r, q, fwd, back);
  }

  lemma PushNothing(r: Reassembler, index: nat)
    requires r.WellFormed() && (r.out.ended <==> r.eof == Some(r.Next()))
    ensures !Aborts(r.out, [], index) && Push(r, [], index, false) == r && Conforms(r.out, [], index, false)
  {
    hide Feed;
    if r.Next() <= index {
      assert Kept(r.out, [], index) == [];
    }
  }

  /** A genuine packet that fits makes an offer the reassembler takes. */
  lemma SliceOffer(p: Packet, s: Sender, r: Receiver)
    requires r.WellFormed() && Genuine(p, s) && Fits(p, r) && !p.seg.header.syn && !Bare(p)
    ensures 1 <= p.abs && Offerable(r.reasm.out, p.seg.payload, p.abs - 1)
    ensures !Aborts(r.reasm.out, p.seg.payload, p.abs - 1)
    ensures Conforms(r.reasm.out, p.seg.payload, p.abs - 1, p.seg.header.fin)
  {
    hide Wrap;
    OfferableConforms(r.reasm.out, p.seg.payload, p.abs - 1, p.seg.header.fin);
  }

  /** The effect of a slice on the receiver: still faithful, with no more than was sent. */
  lemma PushSlice(p: Packet, s: Sender, r: Receiver)
    requires Inv(s) && Faithful(s, r) && Genuine(p, s) && Fits(p, r)
    requires !p.seg.header.syn && !Bare(p) && !r.listening
    requires forall i: nat :: r.reasm.Has(i) ==> i + 1 < s.nextSeq
    ensures 1 <= p.abs && r.reasm.WellFormed() && !Aborts(r.reasm.out, p.seg.payload, p.abs - 1)
    ensures var q := r.(reasm := Push(r.reasm, p.seg.payload, p.abs - 1, p.seg.header.fin));
            && Faithful(s, q) && Proceeds(r, q)
            && Conforms(r.reasm.out, p.seg.payload, p.abs - 1, p.seg.header.fin)
            && forall i: nat :: q.reasm.Has(i) ==> i + 1 < s.nextSeq
  {
    hide Inv, Push, Conforms, Aborts, Fits, Genuine;
    hide CarriesSlice, Faithful, Gains, Reassembler.Agrees, Reassembler.InWindow;
    SliceFacts(p, s, r);
    NextSeqBound(s);
    var index, end, fin := p.abs - 1, p.abs - 1 + |p.seg.payload|, p.seg.header.fin;
    PushAgrees(r.reasm, s.stream.written, index, end, fin);
    var q := Push(r.reasm, p.seg.payload, index, fin);
    PushedEnd(r.reasm, q, s.stream.written, index, end, fin);
    SliceEffect(p, s, r, q);
  }

  lemma SliceFacts(p: Packet, s: Sender, r: Receiver)
    requires Faithful(s, r) && Genuine(p, s) && Fits(p, r) && !p.seg.header.syn && !Bare(p)
    ensures var w, end := s.stream.written, p.abs - 1 + |p.seg.payload|;
            && 1 <= p.abs && end <= |w| && p.seg.payload == w[p.abs - 1..end] && (p.seg.header.fin ==> end == |w|)
            && r.reasm.WellFormed() && r.reasm.InWindow() && r.reasm.Agrees(w)
            && (r.reasm.eof.Some? ==> r.reasm.eof.value == |w|)
            && (r.reasm.out.ended <==> r.reasm.eof == Some(r.reasm.Next()))
            && !Aborts(r.reasm.out, p.seg.payload, p.abs - 1)
            && Conforms(r.reasm.out, p.seg.payload, p.abs - 1, p.seg.header.fin)
  {
    SliceOffer(p, s, r);
    hide Conforms, Aborts, Offerable, Fits, Wrap;
  }

  lemma SliceEffect(p: Packet, s: Sender, r: Receiver, q: Reassembler)
    requires Faithful(s, r) && Genuine(p, s) && !p.seg.header.syn && !Bare(p) && !r.listening && 1 <= p.abs
    requires s.nextSeq <= |s.stream.written| + 2
    requires forall i: nat :: r.reasm.Has(i) ==> i + 1 < s.nextSeq
    requires Gains(r.reasm, q, s.stream.written, p.abs - 1, Min(p.abs - 1 + |p.seg.payload|, r.reasm.Limit()))
    requires q.eof == if p.seg.header.fin then Some(|s.stream.written|) else r.reasm.eof
    requires q.out.ended <==> q.eof == Some(q.Next())
    ensures var t := r.(reasm := q);
            Faithful(s, t) && Proceeds(r, t) && forall i: nat :: t.reasm.Has(i) ==> i + 1 < s.nextSeq
  {
    hide Wrap, Gains;
    GainsMeans(r.reasm, q, s.stream.written, p.abs - 1, Min(p.abs - 1 + |p.seg.payload|, r.reasm.Limit()));
  }

  lemma PushedEnd(r: Reassembler, q: Reassembler, s: seq<Byte>, index: nat, end: nat, fin: bool)
    requires r.InWindow() && r.Agrees(s) && index <= end <= |s| && (fin ==> end == |s|)
    requires Gains(r, q, s, index, Min(end, r.Limit()))
    requires q.eof == if fin then Some(|s|) else r.eof
    requires q.out.ended <==> r.out.ended || (r.Next() <= end && q.eof == Some(q.Next()))
    requires r.eof.Some? ==> r.eof.value == |s|
    requires r.out.ended <==> r.eof == Some(r.Next())
    ensures q.out.ended <==> q.eof == Some(q.Next())
  {
    hide Gains;
    GainsMeans(r, q, s, index, Min(end, r.Limit()));
    assert !r.Has(r.Next());
    if end < r.Next() {
      assert !q.Has(r.Next());
    }
  }

  /** Delivering any packet that is on its way, in any order and any number of times: the reassembler's
      assertion holds and the direction stays in order. */
  lemma DeliverMove(p: Packet, s: Sender, r: Receiver, fwd: set<Packet>, back: set<Packet>)
    requires Link(s, r, fwd, back) && p in fwd && !r.reasm.out.error
    requires r.Progress() - p.abs <= TWO31
    ensures Receivable(r, p.seg) && KeepsToWindow(r, p.seg)
    ensures Link(s, SegmentReceived(r, p.seg), fwd, back)
  {
    hide Inv, Push, Unwrap, Wrap, Aborts, Conforms, Genuine, Fits, TrueAck, RoomFor;
    if r.listening {
      if p.seg.header.syn {
        OpenMove(p, s, r, fwd, back);
        OpenDeliver(p, s, Opened(r, p.seg), fwd, back);
      }
    } else {
      OpenDeliver(p, s, r, fwd, back);
    }
  }

  lemma OpenDeliver(p: Packet, s: Sender, r: Receiver, fwd: set<Packet>, back: set<Packet>)
    requires Link(s, r, fwd, back) && p in fwd && !r.reasm.out.error && !r.listening
    requires r.Progress() - p.abs <= TWO31
    ensures OfferTaken(r, p.seg) && OfferConforms(r, p.seg)
    ensures DataStart(r, p.seg) == 0 ==> Link(s, r, fwd, back)
    ensures DataStart(r, p.seg) > 0 ==>
              Link(s, r.(reasm := Push(r.reasm, p.seg.payload, DataStart(r, p.seg) - 1, p.seg.header.fin)), fwd, back)
  {
    hide Inv, Push, DataStart, Aborts, Conforms, CarriesSlice, TrueAck, RoomFor;
    StartRecovered(p, s, r, fwd, back);
    var start := DataStart(r, p.seg);
    if start > 0 {
      if Bare(p) {
        PushNothing(r.reasm, start - 1);
      } else {
        PushSlice(p, s, r);
        ReceiverMove(s, r, r.(reasm := Push(r.reasm, p.seg.payload, start - 1, p.seg.header.fin)), fwd, back);
      }
    }
  }

  // ---- nothing gets lost on arrival ----

  predicate CarriesIndex(p: Packet, i: nat) {
    p.abs - 1 <= i < p.abs - 1 + |p.seg.payload| && !p.seg.header.syn
  }

  /** Everything the packet carries has been received. */
  ghost predicate Got(p: Packet, r: Receiver) {
    && (p.seg.header.syn ==> !r.listening)
    && (forall i: nat :: CarriesIndex(p, i) ==> r.reasm.Has(i))
    && (p.seg.header.fin ==> r.reasm.eof.Some?)
  }

  /** What arrives in an open receiver is received up to the reader's room, no more and no less. */
  lemma DeliverExact(p: Packet, s: Sender, r: Receiver, fwd: set<Packet>, back: set<Packet>)
    requires Link(s, r, fwd, back) && p in fwd && !r.reasm.out.error && !r.listening
    requires r.Progress() - p.abs <= TWO31
    ensures Receivable(r, p.seg)
    ensures var q := SegmentReceived(r, p.seg);
            && (forall i: nat :: q.reasm.Has(i) <==>
                                 r.reasm.Has(i) ||
                                 (p.abs - 1 <= i < p.abs - 1 + |p.seg.payload| && i < r.reasm.Limit()))
            && (q.reasm.eof.Some? <==> r.reasm.eof.Some? || p.seg.header.fin)
            && !q.listening
  {
    hide Inv, InStep, AcksValid, Push, Aborts, DataStart, CarriesSlice, Reassembler.Agrees, Reassembler.InWindow;
    StartRecovered(p, s, r, fwd, back);
    var start := DataStart(r, p.seg);
    if Bare(p) {
      if start > 0 {
        PushNothing(r.reasm, start - 1);
      }
    } else {
      SliceExact(p, s, r);
    }
  }

  lemma SliceExact(p: Packet, s: Sender, r: Receiver)
    requires Faithful(s, r) && Genuine(p, s) && Fits(p, r) && !p.seg.header.syn && !Bare(p)
    ensures 1 <= p.abs && !Aborts(r.reasm.out, p.seg.payload, p.abs - 1)
    ensures var q := Push(r.reasm, p.seg.payload, p.abs - 1, p.seg.header.fin);
            && (forall i: nat :: q.Has(i) <==>
                                 r.reasm.Has(i) ||
                                 (p.abs - 1 <= i < p.abs - 1 + |p.seg.payload| && i < r.reasm.Limit()))
            && (q.eof.Some? <==> r.reasm.eof.Some? || p.seg.header.fin)
  {
    hide Push, Conforms, Aborts, Fits, Genuine, CarriesSlice, Faithful, Gains, Reassembler.Agrees, Reassembler.InWindow;
    SliceFacts(p, s, r);
    var index, end, fin := p.abs - 1, p.abs - 1 + |p.seg.payload|, p.seg.header.fin;
    PushAgrees(r.reasm, s.stream.written, index, end, fin);
    GainsExact(r.reasm, Push(r.reasm, p.seg.payload, index, fin), s.stream.written, index, end);
  }

  lemma GainsExact(r: Reassembler, q: Reassembler, w: seq<Byte>, index: nat, end: nat)
    requires Gains(r, q, w, index, Min(end, r.Limit()))
    ensures forall i: nat :: q.Has(i) <==> r.Has(i) || (index <= i < end && i < r.Limit())
  {
    hide Gains;
    GainsMeans(r, q, w, index, Min(end, r.Limit()));
  }

  /** Some first transmission carries each byte taken from the stream. */
  lemma {:induction false} CarriedBySome(s: Sender, k: nat, i: nat)
    requires LogValid(s) && 0 < k <= |s.sent|
    requires i + 1 < s.sent[k - 1].abs + |s.sent[k - 1].seg.payload| + (if k == 1 then 1 else 0)
    ensures exists j :: 0 < j < |s.sent| && s.sent[j].abs - 1 <= i < s.sent[j].abs - 1 + |s.sent[j].seg.payload|
  {
    hide CarriesSlice;
    assert Entry(s.sent, k - 1, s.isn, s.stream.written, s.stream.ended);
    if k > 1 && i + 1 < s.sent[k - 1].abs {
      assert Entry(s.sent, k - 2, s.isn, s.stream.written, s.stream.ended);
      CarriedBySome(s, k - 1, i);
    }
  }

  /** Once every segment sent has been received, everything sent has been assembled and acknowledged for. */
  lemma AllGot(s: Sender, r: Receiver, fwd: set<Packet>, back: set<Packet>)
    requires Link(s, r, fwd, back) && forall p :: p in s.sent ==> Got(p, r)
    ensures r.Progress() == s.nextSeq
    ensures FinSentBy(s) ==> r.reasm.out.ended && r.reasm.out.written == s.stream.written
  {
    LinkMeans(s, r, fwd, back);
    hide InStep, FlowValid, AcksValid, TimerValid, QueueValid, Genuine, CarriesSlice;
    if s.sent != [] {
      assert Entry(s.sent, 0, s.isn, s.stream.written, s.stream.ended);
      assert Got(s.sent[0], r);
      var last := |s.sent| - 1;
      assert Entry(s.sent, last, s.isn, s.stream.written, s.stream.ended);
      assert Got(s.sent[last], r);
      forall i: nat | i < s.stream.read
        ensures r.reasm.Has(i)
      {
        CarriedBySome(s, |s.sent|, i);
        var j :| 0 < j < |s.sent| && s.sent[j].abs - 1 <= i < s.sent[j].abs - 1 + |s.sent[j].seg.payload|;
        assert Entry(s.sent, j, s.isn, s.stream.written, s.stream.ended);
        assert Got(s.sent[j], r) && CarriesIndex(s.sent[j], i);
      }
      assert !r.reasm.Has(r.reasm.Next());
    }
  }

  // ---- the wire ----

  /** Putting packets on the way: genuine ones that fit, whose acknowledgements (for the other direction) do not
      concern this one. */
  lemma EmitMove(s: Sender, r: Receiver, fwd: set<Packet>, back: set<Packet>, more: set<Packet>)
    requires Link(s, r, fwd, back)
    requires forall p :: p in more ==> Genuine(p, s) && Fits(p, r)
    ensures Link(s, r, fwd + more, back)
  {
    hide Inv, Faithful, InStep, Genuine, Fits, AcksValid;
  }

  /** Putting acknowledgements on the way back: ones that give the receiver's present state. */
  lemma AcknowledgeMove(s: Sender, r: Receiver, fwd: set<Packet>, back: set<Packet>, more: set<Packet>)
    requires Link(s, r, fwd, back)
    requires forall p :: p in more && p.seg.header.ack ==>
                           && !r.listening && !r.reasm.out.error && p.absAck == r.AbsAck()
                           && r.AckNo() == Some(p.seg.header.ackno) && p.seg.header.win <= r.Window()
    ensures Link(s, r, fwd, back + more)
  {
    hide Inv, Wrap, FlowValid;
    forall p | p in more && p.seg.header.ack
      ensures TrueAck(p, s, r)
    {
      RightEdgeIsLimit(r);
    }
  }
}
