/** What holds of a sender after any run of calls, with acknowledgements of any kind. */
module SenderRuns {
  import opened Bytes
  import opened Segments
  import opened WrappingIntegers
  import opened Sending
  import opened SenderInvariants

  datatype SenderOp =
    | Write(data: seq<Byte>) | EndInput | Fill | Ack(ackno: U32, win: U16) | Pass(ms: nat) | Empty | Drain

  /** The owner's side of the bargain: no writing after the end. */
  predicate Allowed(s: Sender, op: SenderOp) {
    op.Write? ==> !s.stream.ended
  }

  ghost function Step(s: Sender, op: SenderOp): Sender
    requires Inv(s) && Allowed(s, op)
  {
    match op
    case Write(data) => s.(stream := s.stream.Write(data))
    case EndInput => s.(stream := s.stream.EndInput())
    case Fill => FillWindow(s)
    case Ack(ackno, win) => AckReceived(s, ackno, win)
    case Pass(ms) => TickInv(s, ms); Tick(s, ms)
    case Empty => SendEmpty(s)
    case Drain => s.(out := [])
  }

  lemma StepInv(s: Sender, op: SenderOp)
    requires Inv(s) && !s.stream.error && Allowed(s, op)
    ensures Inv(Step(s, op)) && Advances(s, Step(s, op)) && !Step(s, op).stream.error
  {
    hide LogValid, QueueValid, TimerValid, Genuine, FillWindow, AckReceived, Tick, SendEmpty;
    match op
    case Write(data) => WriteInv(s, data);
    case EndInput => EndInputInv(s);
    case Fill =>
      FillWindowInv(s);
    case Ack(ackno, win) => AckReceivedInv(s, ackno, win);
    case Pass(ms) => TickInv(s, ms);
    case Empty => SendEmptyInv(s);
    case Drain => DrainInv(s, [], s.stream.error);
  }

  ghost predicate AllowedRun(s: Sender, ops: seq<SenderOp>)
    requires Inv(s) && !s.stream.error
    decreases |ops|
  {
    ops != [] ==>
      && Allowed(s, ops[0])
      && (StepInv(s, ops[0]);
          AllowedRun(Step(s, ops[0]), ops[1..]))
  }

  ghost function Run(s: Sender, ops: seq<SenderOp>): Sender
    requires Inv(s) && !s.stream.error && AllowedRun(s, ops)
    decreases |ops|
  {
    if ops == [] then s
    else
      StepInv(s, ops[0]);
      Run(Step(s, ops[0]), ops[1..])
  }

  ghost function Fresh(isn: U32, capacity: nat, rto: nat): (s: Sender)
    requires 0 < capacity
    ensures Inv(s) && !s.stream.error
  {
    NewSenderInv(isn, capacity, rto);
    NewSender(isn, capacity, rto)
  }

  lemma {:induction false} RunInv(s: Sender, ops: seq<SenderOp>)
    requires Inv(s) && !s.stream.error && AllowedRun(s, ops)
    ensures Inv(Run(s, ops)) && Advances(s, Run(s, ops))
    decreases |ops|
  {
    hide Inv, Step;
    if ops != [] {
      StepInv(s, ops[0]);
      RunInv(Step(s, ops[0]), ops[1..]);
    }
  }

  function Payloads(sent: seq<Packet>): seq<Byte> {
    if sent == [] then [] else Payloads(sent[..|sent| - 1]) + sent[|sent| - 1].seg.payload
  }

  function TotalLength(segs: seq<TcpSegment>): nat {
    if segs == [] then 0 else segs[0].Length() + TotalLength(segs[1..])
  }

  /** Where the payload of the `k`-th first transmission ends in the stream. */
  function StreamEnd(s: Sender, k: nat): int
    requires 0 < k <= |s.sent|
  {
    if k == 1 then 0 else s.sent[k - 1].abs - 1 + |s.sent[k - 1].seg.payload|
  }

  /** The payloads sent so far are, in order and without gap or repetition, the bytes taken from the stream. */
  lemma {:induction false} PayloadsAreStream(s: Sender, k: nat)
    requires LogValid(s) && 0 < k <= |s.sent|
    ensures 0 <= StreamEnd(s, k) <= |s.stream.written|
    ensures Payloads(s.sent[..k]) == s.stream.written[..StreamEnd(s, k)]
  {
    PayloadsSplit(s.sent, k);
    StreamEndStep(s, k);
    if k > 1 {
      PayloadsAreStream(s, k - 1);
      hide LogValid, Payloads, StreamEnd;
      PrefixGrows(s.stream.written, StreamEnd(s, k - 1), StreamEnd(s, k));
    } else {
      assert Payloads(s.sent[..0]) == [];
    }
  }

  lemma PayloadsSplit(sent: seq<Packet>, k: nat)
    requires 0 < k <= |sent|
    ensures Payloads(sent[..k]) == Payloads(sent[..k - 1]) + sent[k - 1].seg.payload
  {
    assert sent[..k][..k - 1] == sent[..k - 1];
  }

  lemma StreamEndStep(s: Sender, k: nat)
    requires LogValid(s) && 0 < k <= |s.sent|
    ensures k == 1 ==> s.sent[0].seg.payload == []
    ensures k > 1 ==> 0 <= StreamEnd(s, k - 1) <= StreamEnd(s, k) <= |s.stream.written|
                      && s.sent[k - 1].seg.payload == s.stream.written[StreamEnd(s, k - 1)..StreamEnd(s, k)]
  {
    assert Entry(s.sent, k - 1, s.isn, s.stream.written, s.stream.ended);
    if k > 1 {
      assert Entry(s.sent, k - 2, s.isn, s.stream.written, s.stream.ended);
    }
  }

  lemma PrefixGrows<T>(w: seq<T>, a: int, b: int)
    requires 0 <= a <= b <= |w|
    ensures w[..a] + w[a..b] == w[..b]
  {
  }

  lemma {:induction false} OutstandingTotal(s: Sender, n: nat)
    requires LogValid(s) && QueueValid(s) && n <= |s.outstanding|
    ensures TotalLength(s.outstanding[n..]) ==
            s.nextSeq - (if n == |s.outstanding| then s.nextSeq else s.sent[|s.sent| - |s.outstanding| + n].abs)
    decreases |s.outstanding| - n
  {
    hide CarriesSlice;
    if n < |s.outstanding| {
      OutstandingTotal(s, n + 1);
      assert s.outstanding[n..][1..] == s.outstanding[n + 1..];
      var i := |s.sent| - |s.outstanding| + n;
      assert s.outstanding[n] == s.sent[i].seg;
      if n + 1 < |s.outstanding| {
        assert Entry(s.sent, i + 1, s.isn, s.stream.written, s.stream.ended);
      }
    }
  }

  /** The first transmissions are the SYN, then segments of at most 1000 bytes whose payloads make up exactly
      the bytes taken from the stream; FIN is only on the last, when the stream has ended and is used up. */
  ghost predicate Conserved(s: Sender) {
    && s.stream.read <= |s.stream.written|
    && Payloads(s.sent) == s.stream.written[..s.stream.read]
    && (forall k :: 0 <= k < |s.sent| ==> (s.sent[k].seg.header.syn <==> k == 0))
    && (forall k :: 0 <= k < |s.sent| ==> 0 < s.sent[k].seg.Length() && |s.sent[k].seg.payload| <= 1000)
    && (forall k :: 0 <= k < |s.sent| && s.sent[k].seg.header.fin ==>
                      k == |s.sent| - 1 && s.stream.ended && s.stream.read == |s.stream.written|)
  }

  lemma InvConserves(s: Sender)
    requires Inv(s)
    ensures Conserved(s)
  {
    hide CarriesSlice, TimerValid, QueueValid, Genuine;
    if s.sent != [] {
      var last := |s.sent| - 1;
      PayloadsAreStream(s, |s.sent|);
      assert s.sent[..|s.sent|] == s.sent;
      assert Entry(s.sent, last, s.isn, s.stream.written, s.stream.ended);
      assert s.sent[last].seg.header.fin ==> s.stream.ended && s.stream.read == |s.stream.written| by {
        if FinSentBy(s) {
          FinSentMeans(s);
        }
      }
      hide Payloads;
      forall k | 0 <= k < |s.sent|
        ensures s.sent[k].seg.header.syn <==> k == 0
        ensures 0 < s.sent[k].seg.Length() && |s.sent[k].seg.payload| <= 1000
        ensures s.sent[k].seg.header.fin ==> k == last
      {
        assert Entry(s.sent, k, s.isn, s.stream.written, s.stream.ended);
      }
    }
  }

  /** Sending conserves the stream over any run. */
  lemma SendingConserves(isn: U32, capacity: nat, rto: nat, ops: seq<SenderOp>)
    requires 0 < capacity && AllowedRun(Fresh(isn, capacity, rto), ops)
    ensures Conserved(Run(Fresh(isn, capacity, rto), ops))
  {
    hide Run, AllowedRun, Conserved, Inv;
    RunInv(Fresh(isn, capacity, rto), ops);
    InvConserves(Run(Fresh(isn, capacity, rto), ops));
  }

  /** The outstanding segments exactly tile the numbers in flight: none is empty, and each starts where the lengths of
      the ones before put it. The last acknowledgement lies in the oldest of them, the timer runs while there are any,
      and the timeout has doubled with each retransmission. */
  ghost predicate Tiled(s: Sender) {
    && s.inFlight == TotalLength(s.outstanding) <= s.nextSeq
    && (forall j :: 0 <= j < |s.outstanding| ==> s.outstanding[j].Length() > 0 && Starts(s, j))
    && s.nextSeq - s.inFlight <= s.lastAck <= s.nextSeq
    && s.nextSeq - s.lastAck <= 65535
    && (s.outstanding == [] ==> s.lastAck == s.nextSeq)
    && (s.outstanding != [] ==> s.lastAck < s.nextSeq - s.inFlight + s.outstanding[0].Length())
    && (s.timer.started <==> s.outstanding != [])
    && s.timer.timeout == s.initRto * Pow2(s.retx)
  }

  /** Outstanding segment `j` carries the number at which it and the ones after it reach up to the next one. */
  predicate Starts(s: Sender, j: nat)
    requires j < |s.outstanding|
  {
    && TotalLength(s.outstanding[j..]) <= s.nextSeq
    && s.outstanding[j].header.seqno == Wrap(s.nextSeq - TotalLength(s.outstanding[j..]), s.isn)
  }

  lemma OutstandingStarts(s: Sender, j: nat)
    requires LogValid(s) && QueueValid(s) && j < |s.outstanding|
    ensures s.outstanding[j].Length() > 0 && Starts(s, j)
  {
    hide CarriesSlice, Wrap, TotalLength;
    OutstandingTotal(s, j);
    assert Entry(s.sent, |s.sent| - |s.outstanding| + j, s.isn, s.stream.written, s.stream.ended);
    assert s.outstanding[j] == s.sent[|s.sent| - |s.outstanding| + j].seg;
  }

  lemma InvTiles(s: Sender)
    requires Inv(s)
    ensures Tiled(s)
  {
    hide CarriesSlice, Genuine, Wrap;
    OutstandingTotal(s, 0);
    assert s.outstanding[0..] == s.outstanding;
    forall j | 0 <= j < |s.outstanding|
      ensures s.outstanding[j].Length() > 0 && Starts(s, j)
    {
      OutstandingStarts(s, j);
    }
  }

  lemma OutstandingTiles(isn: U32, capacity: nat, rto: nat, ops: seq<SenderOp>)
    requires 0 < capacity && AllowedRun(Fresh(isn, capacity, rto), ops)
    ensures Tiled(Run(Fresh(isn, capacity, rto), ops)) && Run(Fresh(isn, capacity, rto), ops).initRto == rto
  {
    hide Run, AllowedRun, Tiled, Inv;
    RunInv(Fresh(isn, capacity, rto), ops);
    InvTiles(Run(Fresh(isn, capacity, rto), ops));
  }

  // ---- progress ----

  /** A shut window is probed: with data waiting and nothing in flight, exactly one byte of it goes out. */
  lemma ShutWindowProbed(s: Sender)
    requires Inv(s) && !s.stream.error && 0 < s.nextSeq == s.lastAck && s.window == 0 && s.stream.Size() > 0
    ensures var t := FillWindow(s);
            && t.nextSeq == s.nextSeq + 1 && t.stream.read == s.stream.read + 1
            && |t.out| == |s.out| + 1 && s.out <= t.out
            && t.out[|s.out|].seg.payload == [s.stream.written[s.stream.read]]
            && t.out[|s.out|].abs == s.lastAck && !t.out[|s.out|].seg.header.fin
  {
    hide LogValid, QueueValid, TimerValid, Genuine;
    var t := FillStep(s);
    assert SendSize(s) == 1;
    FillStepProgress(s);
    assert FillLoop(t) == t;
    var v := s.stream.View();
    assert v[..1] == [s.stream.written[s.stream.read]];
  }

  /** While anything is outstanding, letting the timeout pass sends the oldest segment again; the attempt counts,
      and the timeout doubles, unless the window is shut. */
  lemma OldestSentAgain(s: Sender, ms: nat)
    requires Inv(s) && s.outstanding != [] && s.timer.timeout <= s.timer.elapsed + ms
    ensures Elapse(s, ms).timer.Expired()
    ensures var t := Tick(s, ms);
            && t.out == s.out + [Packet(s.outstanding[0], s.Front(), 0)]
            && t.retx == (if s.window == 0 then s.retx else s.retx + 1)
            && t.timer == TimerValue(if s.window == 0 then s.timer.timeout else 2 * s.timer.timeout, 0, true)
  {
    hide LogValid, QueueValid, Genuine;
  }

  /** Before the timeout nothing is sent again. */
  lemma NothingSentEarly(s: Sender, ms: nat)
    requires Inv(s) && (s.outstanding == [] || s.timer.elapsed + ms < s.timer.timeout)
    ensures !Elapse(s, ms).timer.Expired()
    ensures Tick(s, ms) == s.(timer := Tick(s, ms).timer, quiet := Tick(s, ms).quiet)
    ensures Tick(s, ms).timer == (if s.outstanding == [] then s.timer
                                  else TimerValue(s.timer.timeout, s.timer.elapsed + ms, true))
  {
    hide LogValid, QueueValid, Genuine;
  }

  ghost function TickEach(s: Sender, mss: seq<nat>): Sender
    requires Inv(s)
    decreases |mss|
  {
    if mss == [] then s
    else
      TickInv(s, mss[0]);
      TickEach(Tick(s, mss[0]), mss[1..])
  }

  /** However time is cut into ticks, the oldest segment is sent again at exactly the tick with which the time since the
      timer started reaches the timeout, and nothing before. */
  lemma {:induction false} ExpiresOnTime(s: Sender, mss: seq<nat>, ms: nat)
    requires Inv(s) && s.outstanding != [] && s.timer.elapsed + Sum(mss) < s.timer.timeout
    ensures var t := TickEach(s, mss);
            && Inv(t) && t == s.(timer := t.timer, quiet := t.quiet)
            && t.timer == TimerValue(s.timer.timeout, s.timer.elapsed + Sum(mss), true)
            && (Elapse(t, ms).timer.Expired() <==> s.timer.timeout <= s.timer.elapsed + Sum(mss) + ms)
    decreases |mss|
  {
    hide LogValid, QueueValid, Genuine, Tick;
    if mss != [] {
      NothingSentEarly(s, mss[0]);
      TickInv(s, mss[0]);
      ExpiresOnTime(Tick(s, mss[0]), mss[1..], ms);
    }
  }

  /** Filling stops only when the window is used up, or when everything written has been sent, and FIN with it if
      the stream has ended and the SYN is acknowledged. */
  lemma FillsUp(s: Sender)
    requires Inv(s) && !s.stream.error && 0 < s.nextSeq
    ensures var t := FillWindow(s);
            || t.lastAck + Max(1, t.window) <= t.nextSeq
            || (t.stream.read == |t.stream.written| && (t.stream.ended ==> FinSentBy(t) || t.Front() == 0))
  {
    hide TimerValid, Genuine, Entry;
    FillLoopInv(s);
  }

  // ---- how the stream is cut into segments ----

  /** The first number the window does not admit: a shut window counts as one number. */
  function Edge(lastAck: nat, window: nat): nat {
    lastAck + Max(1, window)
  }

  /** The number after the last one there is to send so far; FIN is there once the SYN is acknowledged. */
  function SendEnd(written: seq<Byte>, ended: bool, lastAck: nat): nat {
    |written| + if ended && 0 < lastAck then 2 else 1
  }

  /** A segment as large as payload limit, stream and window allow, with FIN if and only if it reaches the end of the
      ended stream and the window has one number more. */
  predicate CutFull(p: Packet, written: seq<Byte>, ended: bool, lastAck: nat, window: nat) {
    var edge := Edge(lastAck, window);
    && 1 <= p.abs <= |written| + 1 && p.abs < edge
    && |p.seg.payload| == Min(1000, Min(|written| - (p.abs - 1), edge - p.abs))
    && p.seg.payload == written[p.abs - 1..p.abs - 1 + |p.seg.payload|]
    && (p.seg.header.fin <==>
          ended && 0 < lastAck && p.abs - 1 + |p.seg.payload| == |written| && p.abs + |p.seg.payload| < edge)
  }

  lemma StepCuts(s: Sender)
    requires Inv(s) && !s.stream.error && 0 < s.nextSeq && CanSend(s)
    ensures var p := Packet(NextSegment(s), s.nextSeq, 0);
            && CutFull(p, s.stream.written, s.stream.ended, s.lastAck, s.window)
            && p.End() <= SendEnd(s.stream.written, s.stream.ended, s.lastAck)
  {
    SynAckedMeans(s);
    if FinSentBy(s) {
      FinSentMeans(s);
    }
    hide QueueValid, TimerValid, Genuine, Entry, Wrap;
    SliceOfSlice(s.stream.written, s.stream.read, |s.stream.written|, 0, SendSize(s));
  }

  lemma {:induction false} LoopCuts(s: Sender, k: nat)
    requires Inv(s) && !s.stream.error && 0 < s.nextSeq
    ensures var t := FillLoop(s);
            && s.sent <= t.sent && t.stream.written == s.stream.written
            && (|s.sent| <= k < |t.sent| ==>
                  CutFull(t.sent[k], s.stream.written, s.stream.ended, s.lastAck, s.window))
            && s.nextSeq <= t.nextSeq
            && t.nextSeq <= Max(s.nextSeq, SendEnd(s.stream.written, s.stream.ended, s.lastAck))
    decreases s.FreeWindow()
  {
    hide LogValid, TimerValid, Genuine, CutFull, NextSegment;
    if CanSend(s) {
      StepCuts(s);
      FillStepInv(s);
      FillStepProgress(s);
      LoopCuts(FillStep(s), k);
    }
  }

  lemma NewFollows(s: Sender, t: Sender, k: nat)
    requires LogValid(s) && LogValid(t) && s.sent <= t.sent && |s.sent| <= k < |t.sent| && 0 < s.nextSeq
    ensures t.sent[k].abs == if k == |s.sent| then s.nextSeq else t.sent[k - 1].End()
  {
    hide CarriesSlice, Wrap;
    assert Entry(t.sent, k, t.isn, t.stream.written, t.stream.ended);
  }

  lemma FillsWithin(s: Sender, t: Sender)
    requires Inv(s) && 0 < s.nextSeq && Filled(s, t)
    ensures t.nextSeq <= Max(s.nextSeq, Edge(s.lastAck, s.window))
  {
    hide QueueValid, TimerValid, Genuine, Entry;
    assert |s.sent| < |t.sent| ==> Admitted(t.sent[|t.sent| - 1], s.lastAck, s.window);
  }

  /** Filling the window cuts the stream from the next number on into segments as large as they can be, each following
      on the one before, and goes on to the end of the window or of what there is to send. */
  lemma FillCuts(s: Sender, k: nat)
    requires Inv(s) && !s.stream.error && 0 < s.nextSeq
    ensures var t := FillWindow(s);
            && s.sent <= t.sent && t.stream.written == s.stream.written
            && (|s.sent| <= k < |t.sent| ==>
                  && CutFull(t.sent[k], s.stream.written, s.stream.ended, s.lastAck, s.window)
                  && t.sent[k].abs == (if k == |s.sent| then s.nextSeq else t.sent[k - 1].End()))
            && t.nextSeq == Max(s.nextSeq, Min(Edge(s.lastAck, s.window),
                                               SendEnd(s.stream.written, s.stream.ended, s.lastAck)))
  {
    hide TimerValid, Genuine, CutFull, FillLoop, Entry;
    LoopCuts(s, k);
    FillLoopInv(s);
    var t := FillWindow(s);
    FillsUp(s);
    FillsWithin(s, t);
    if |s.sent| <= k < |t.sent| {
      NewFollows(s, t, k);
    }
    SynAckedMeans(t);
    if FinSentBy(t) {
      FinSentMeans(t);
    }
    hide QueueValid;
  }
}
