/** The sending half of a connection, as a value with the history of what it sent. */
module Sending {
  import opened Bytes
  import opened WrappingIntegers
  import opened Segments
  import opened Streams

  const MAX_PAYLOAD_SIZE: nat := 1000

  datatype TimerValue = TimerValue(timeout: nat, elapsed: nat, started: bool) {
    function Reset(): TimerValue {
      this.(elapsed := 0, started := false)
    }

    function ResetTo(ms: nat): TimerValue {
      TimerValue(ms, 0, false)
    }

    function Restart(): TimerValue {
      Reset().(started := true)
    }

    function Tick(ms: nat): TimerValue {
      if started then this.(elapsed := elapsed + ms) else this
    }

    predicate Expired() {
      started && elapsed >= timeout
    }
  }

  datatype SenderState = Failed | Closed | SynSent | SynAcked | FinSent | FinAcked

  /** A segment on its way, with the absolute numbers its 32-bit fields stand for. */
  datatype Packet = Packet(seg: TcpSegment, abs: nat, absAck: nat) {
    function End(): nat {
      abs + seg.Length()
    }
  }

  /** `sent` is every first transmission in order; `quiet` the time ticked away since new data was last
      acknowledged or the timer last started from rest. */
  datatype Sender = Sender(
    isn: U32, initRto: nat, stream: Stream, timer: TimerValue, retx: nat,
    nextSeq: nat, lastAck: nat, inFlight: int, window: nat,
    out: seq<Packet>, outstanding: seq<TcpSegment>, sent: seq<Packet>, quiet: nat)
  {
    function State(): SenderState {
      if stream.error then Failed
      else if nextSeq == 0 then Closed
      else if nextSeq == inFlight then SynSent
      else if !stream.Eof() || nextSeq < |stream.written| + 2 then SynAcked
      else if inFlight != 0 then FinSent
      else FinAcked
    }

    /** An empty window counts as one sequence number when nothing is in flight. */
    function FreeWindow(): nat
      requires lastAck <= nextSeq
    {
      if window == 0 && nextSeq == lastAck then 1
      else if window <= nextSeq - lastAck then 0
      else window - (nextSeq - lastAck)
    }

    predicate NeedsFin() {
      stream.ended && State().SynAcked?
    }

    /** The absolute number the oldest outstanding segment was sent with. */
    function Front(): nat {
      if outstanding == [] || |sent| < |outstanding| then nextSeq else sent[|sent| - |outstanding|].abs
    }
  }

  function NewSender(isn: U32, capacity: nat, rto: nat): Sender {
    Sender(isn, rto, Empty(capacity), TimerValue(rto, 0, false), 0, 0, 0, 0, 1, [], [], [], 0)
  }

  function SendSegment(s: Sender, seg: TcpSegment): Sender {
    var p := Packet(seg, s.nextSeq, 0);
    s.(nextSeq := s.nextSeq + seg.Length(),
    inFlight := s.inFlight + seg.Length(),
    out := s.out + [p],
    outstanding := s.outstanding + [seg],
    sent := s.sent + [p],
    timer := if s.timer.started then s.timer else s.timer.Restart(),
    quiet := if s.timer.started then s.quiet else 0)
  }

  function SendSize(s: Sender): nat
    requires s.stream.WellFormed() && s.lastAck <= s.nextSeq
  {
    Min(Min(s.stream.Size(), s.FreeWindow()), MAX_PAYLOAD_SIZE)
  }

  /** FIN goes out with the last byte if the window has room for both. */
  predicate CarriesFin(s: Sender)
    requires s.stream.WellFormed() && s.lastAck <= s.nextSeq
  {
    s.stream.Pop(SendSize(s)).Eof() && s.FreeWindow() > SendSize(s) && s.NeedsFin()
  }

  function NextSegment(s: Sender): TcpSegment
    requires s.stream.WellFormed() && s.lastAck <= s.nextSeq
  {
    DataSegment(Wrap(s.nextSeq, s.isn), s.stream.Peek(SendSize(s)), CarriesFin(s))
  }

  predicate CanSend(s: Sender)
    requires s.stream.WellFormed() && s.lastAck <= s.nextSeq
  {
    s.FreeWindow() != 0 && (s.stream.Size() != 0 || s.NeedsFin())
  }

  function FillStep(s: Sender): Sender
    requires s.stream.WellFormed() && s.lastAck <= s.nextSeq
  {
    SendSegment(s.(stream := s.stream.Pop(SendSize(s))), NextSegment(s))
  }

  /** Every pass uses up some of the window. */
  lemma FillStepProgress(s: Sender)
    requires s.stream.WellFormed() && s.lastAck <= s.nextSeq && CanSend(s)
    ensures var s1 := FillStep(s);
            && s1.stream.WellFormed() && s1.lastAck <= s1.nextSeq
            && s1.FreeWindow() < s.FreeWindow()
            && 0 < NextSegment(s).Length() <= s.FreeWindow()
  {
    if s.stream.Size() == 0 {
      assert s.stream.Pop(0).Eof();
    }
  }

  function FillLoop(s: Sender): Sender
    requires s.stream.WellFormed() && s.lastAck <= s.nextSeq
    decreases s.FreeWindow()
  {
    if !CanSend(s) then s
    else
      FillStepProgress(s);
      FillLoop(FillStep(s))
  }

  function FillWindow(s: Sender): Sender
    requires s.stream.WellFormed() && s.lastAck <= s.nextSeq
  {
    if s.State().Closed? then SendSegment(s, SynSegment(s.isn)) else FillLoop(s)
  }

  /** Drops fully acknowledged segments; the timer restarts if one remains. */
  function PopAcked(s: Sender, absAck: nat): Sender
    decreases |s.outstanding|
  {
    if s.outstanding == [] then s
    else
      var seg := s.outstanding[0];
      if Unwrap(seg.header.seqno, s.isn, s.lastAck) + seg.Length() > absAck then s.(timer := s.timer.Restart())
      else PopAcked(s.(inFlight := s.inFlight - seg.Length(), outstanding := s.outstanding[1..]), absAck)
  }

  function AckReceived(s: Sender, ackno: U32, win: U16): Sender {
    var absAck := Unwrap(ackno, s.isn, s.lastAck);
    if absAck <= s.lastAck || absAck > s.nextSeq then
      if absAck == s.lastAck then s.(window := win) else s
    else
      var s1 := s.(timer := s.timer.ResetTo(s.initRto), retx := 0, quiet := 0);
      PopAcked(s1, absAck).(window := win, lastAck := absAck)
  }

  /** Sends the oldest outstanding segment again; the timeout doubles unless the window is shut. */
  function Retransmit(s: Sender): Sender
    requires s.outstanding != []
  {
    var s1 := s.(out := s.out + [Packet(s.outstanding[0], s.Front(), 0)]);
    var s2 := if s.window > 0 then s1.(retx := s.retx + 1, timer := s.timer.ResetTo(s.timer.timeout * 2)) else s1;
    s2.(timer := s2.timer.Restart())
  }

  function Elapse(s: Sender, ms: nat): Sender {
    s.(timer := s.timer.Tick(ms), quiet := if s.timer.started then s.quiet + ms else s.quiet)
  }

  function Tick(s: Sender, ms: nat): Sender
    requires Elapse(s, ms).timer.Expired() ==> s.outstanding != []
  {
    var s1 := Elapse(s, ms);
    if s1.timer.Expired() then Retransmit(s1) else s1
  }

  function SendEmpty(s: Sender): Sender {
    if s.out == [] then s.(out := [Packet(DataSegment(Wrap(s.nextSeq, s.isn), [], false), s.nextSeq, 0)]) else s
  }
}
