/** The ring buffer behind a byte stream. */
module ByteStreams {
  import opened Bytes
  import opened Streams

  class ByteStream {
    const buffer: array<Byte>
    var usedSize: nat
    var startPos: nat
    var bytesRead: nat
    var bytesWritten: nat
    var inputEnded: bool
    var hasError: bool
    ghost var written: seq<Byte>  // every byte ever accepted

    ghost predicate Valid()
      reads this, buffer
    {
      && 0 < buffer.Length
      && startPos < buffer.Length
      && usedSize <= buffer.Length
      && bytesRead + usedSize == bytesWritten == |written|
      && forall k :: 0 <= k < usedSize ==> buffer[Slot(startPos, k, buffer.Length)] == written[bytesRead + k]
    }

    ghost function Value(): (s: Stream)
      reads this
    {
      Stream(buffer.Length, written, bytesRead, inputEnded, hasError)
    }

    constructor (capacity: nat)
      requires 0 < capacity
      ensures Valid() && fresh(buffer)
      ensures Value() == Empty(capacity)
    {
      buffer := new Byte[capacity](_ => 0);
      usedSize, startPos, bytesRead, bytesWritten := 0, 0, 0, 0;
      inputEnded, hasError := false, false;
      written := [];
    }

    /** Copies `data` into the free slots, going round the end of the array when it must. */
    method CopyIn(data: seq<Byte>)
      requires Valid() && 0 < |data| <= buffer.Length - usedSize
      modifies buffer
      ensures forall k :: 0 <= k < usedSize + |data| ==>
                            buffer[Slot(startPos, k, buffer.Length)] == (written[bytesRead..] + data)[k]
    {
      var end := (startPos + usedSize) % buffer.Length;
      SlotIsModulo(startPos, usedSize, buffer.Length);
      if end < startPos || end + |data| <= buffer.Length {
        Memcpy(buffer, end, data);
      } else {
        var copy1 := buffer.Length - end;
        Memcpy(buffer, end, data[..copy1]);
        Memcpy(buffer, 0, data[copy1..]);
      }
    }

    method Write(data: seq<Byte>) returns (writeSize: nat)
      requires Valid()
      modifies this, buffer
      ensures Valid()
      ensures Value() == old(Value()).Write(data)
      ensures writeSize == |Value().written| - |old(Value()).written| == Min(|data|, old(Value()).Remaining())
    {
      writeSize := Min(|data|, buffer.Length - usedSize);
      if writeSize == 0 {
        assert data[..0] == [];
        return 0;
      }
      CopyIn(data[..writeSize]);
      usedSize := usedSize + writeSize;
      assert usedSize <= buffer.Length;
      bytesWritten := bytesWritten + writeSize;
      written := written + data[..writeSize];
    }

    method PeekOutput(len: nat) returns (ret: seq<Byte>)
      requires Valid()
      ensures ret == Value().Peek(len)
    {
      var readSize := Min(len, usedSize);
      if startPos + readSize <= buffer.Length {
        ret := buffer[startPos..startPos + readSize];
      } else {
        var copy1 := buffer.Length - startPos;
        ret := buffer[startPos..startPos + copy1] + buffer[..readSize - copy1];
      }
      forall k | 0 <= k < readSize
        ensures ret[k] == written[bytesRead + k]
      {
        assert ret[k] == buffer[Slot(startPos, k, buffer.Length)];
      }
    }

    method PopOutput(len: nat)
      requires Valid()
      modifies this
      ensures Valid()
      ensures Value() == old(Value()).Pop(len)
    {
      var popSize := Min(len, usedSize);
      var newStart := (startPos + popSize) % buffer.Length;
      SlotIsModulo(startPos, popSize, buffer.Length);
      forall k | 0 <= k < usedSize - popSize
        ensures buffer[Slot(newStart, k, buffer.Length)] == written[bytesRead + popSize + k]
      {
        assert Slot(newStart, k, buffer.Length) == Slot(startPos, popSize + k, buffer.Length);
      }
      startPos := newStart;
      usedSize := usedSize - popSize;
      bytesRead := bytesRead + popSize;
    }

    method Read(len: nat) returns (ret: seq<Byte>)
      requires Valid()
      modifies this
      ensures Valid()
      ensures ret == old(Value()).Peek(len) && Value() == old(Value()).Pop(len)
    {
      ret := PeekOutput(len);
      PopOutput(len);
    }

    method EndInput()
      requires Valid()
      modifies this
      ensures Valid()
      ensures Value() == old(Value()).EndInput()
    {
      inputEnded := true;
    }

    method SetError()
      requires Valid()
      modifies this
      ensures Valid()
      ensures Value() == old(Value()).SetError()
    {
      hasError := true;
    }

    predicate IsEof()
      requires Valid()
      reads this, buffer
      ensures IsEof() == Value().Eof()
    {
      usedSize == 0 && inputEnded
    }

    function RemainingCapacity(): (n: nat)
      requires Valid()
      reads this, buffer
      ensures n == Value().Remaining()
    {
      buffer.Length - usedSize
    }
  }
}
