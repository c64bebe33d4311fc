/** The bounded first-in first-out byte stream, as a value with its full history. */
module Streams {
  import opened Bytes

  /** `written` is every byte ever accepted and `read` how many of them were taken out again. */
  datatype Stream = Stream(capacity: nat, written: seq<Byte>, read: nat, ended: bool, error: bool) {

    predicate WellFormed() {
      0 < capacity && read <= |written| <= read + capacity
    }

    function Size(): (n: int) {
      |written| - read
    }

    /** First index beyond what there is room for until more is read. */
    function Limit(): nat {
      read + capacity
    }

    function Remaining(): (n: int) {
      capacity - Size()
    }

    function View(): (v: seq<Byte>)
      requires WellFormed()
    {
      written[read..]
    }

    predicate Eof() {
      Size() == 0 && ended
    }

    function Accepted(data: seq<Byte>): (d: seq<Byte>)
      requires WellFormed()
    {
      data[..Min(|data|, Remaining())]
    }

    function Write(data: seq<Byte>): (s: Stream)
      requires WellFormed()
      ensures s.WellFormed()
    {
      this.(written := written + Accepted(data))
    }

    function Peek(len: nat): (d: seq<Byte>)
      requires WellFormed()
    {
      View()[..Min(len, Size())]
    }

    function Pop(len: nat): (s: Stream)
      requires WellFormed()
      ensures s.WellFormed()
    {
      this.(read := read + Min(len, Size()))
    }

    function EndInput(): Stream {
      this.(ended := true)
    }

    function SetError(): Stream {
      this.(error := true)
    }
  }

  function Empty(capacity: nat): Stream {
    Stream(capacity, [], 0, false, false)
  }

  datatype StreamOp = WriteOp(data: seq<Byte>) | ReadOp(len: nat) | EndOp | ErrorOp

  /** What a sequence of calls leaves behind: the stream, everything accepted, everything handed out. */
  datatype Trace = Trace(stream: Stream, accepted: seq<Byte>, delivered: seq<Byte>)

  function Run(s: Stream, ops: seq<StreamOp>): (t: Trace)
    requires s.WellFormed()
    decreases |ops|
  {
    if ops == [] then Trace(s, [], [])
    else match ops[0] {
      case WriteOp(data) =>
        var rest := Run(s.Write(data), ops[1..]);
        rest.(accepted := s.Accepted(data) + rest.accepted)
      case ReadOp(len) =>
        var rest := Run(s.Pop(len), ops[1..]);
        rest.(delivered := s.Peek(len) + rest.delivered)
      case EndOp => Run(s.EndInput(), ops[1..])
      case ErrorOp => Run(s.SetError(), ops[1..])
    }
  }

  lemma WriteExtendsView(s: Stream, data: seq<Byte>)
    requires s.WellFormed()
    ensures s.Write(data).View() == s.View() + s.Accepted(data)
  {
  }

  lemma PopSplitsView(s: Stream, len: nat)
    requires s.WellFormed()
    ensures s.View() == s.Peek(len) + s.Pop(len).View()
  {
  }

  ghost predicate Fifo(s: Stream, t: Trace)
    requires s.WellFormed()
  {
    && t.stream.WellFormed()
    && s.View() + t.accepted == t.delivered + t.stream.View()
    && t.stream.written == s.written + t.accepted
    && t.stream.read == s.read + |t.delivered|
    && t.stream.capacity == s.capacity
  }

  /** First-in first-out over any interleaving: what was held plus what was accepted comes out in order. */
  lemma {:induction false} RunIsFifo(s: Stream, ops: seq<StreamOp>)
    requires s.WellFormed()
    ensures Fifo(s, Run(s, ops))
    ensures |Run(s, ops).stream.View()| <= s.capacity
    decreases |ops|
  {
    if ops != [] {
      match ops[0] {
        case WriteOp(data) =>
          RunIsFifo(s.Write(data), ops[1..]);
          FifoAfterWrite(s, data, Run(s.Write(data), ops[1..]));
        case ReadOp(len) =>
          RunIsFifo(s.Pop(len), ops[1..]);
          FifoAfterRead(s, len, Run(s.Pop(len), ops[1..]));
        case EndOp =>
          RunIsFifo(s.EndInput(), ops[1..]);
        case ErrorOp =>
          RunIsFifo(s.SetError(), ops[1..]);
      }
    }
  }

  lemma FifoAfterWrite(s: Stream, data: seq<Byte>, t: Trace)
    requires s.WellFormed() && Fifo(s.Write(data), t)
    ensures Fifo(s, t.(accepted := s.Accepted(data) + t.accepted))
  {
    WriteExtendsView(s, data);
    assert s.View() + (s.Accepted(data) + t.accepted) == s.View() + s.Accepted(data) + t.accepted;
  }

  lemma FifoAfterRead(s: Stream, len: nat, t: Trace)
    requires s.WellFormed() && Fifo(s.Pop(len), t)
    ensures Fifo(s, t.(delivered := s.Peek(len) + t.delivered))
  {
    PopSplitsView(s, len);
    assert s.Peek(len) + s.Pop(len).View() + t.accepted == s.Peek(len) + (s.Pop(len).View() + t.accepted);
    assert s.Peek(len) + (t.delivered + t.stream.View()) == s.Peek(len) + t.delivered + t.stream.View();
  }
}
