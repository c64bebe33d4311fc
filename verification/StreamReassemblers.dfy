/** The reassembler object: the ring of early bytes feeding the ring of the output stream. */
module StreamReassemblers {
  import opened Bytes
  import opened Intervals
  import opened Streams
  import opened ByteStreams
  import opened UnassembledBuffers
  import opened Assembly
  import opened Reassembly

  class StreamReassembler {
    const buffer: UnassembledBuffer
    const output: ByteStream
    const capacity: nat
    var eofIndex: Option<nat>

    ghost predicate Held()
      reads this, buffer, buffer.buffer, output, output.buffer
    {
      && output.Valid() && buffer.Valid()
      && buffer.buffer != output.buffer
      && buffer.buffer.Length == output.buffer.Length == capacity < 0x1_0000_0000_0000_0000
    }

    ghost predicate Valid()
      reads this, buffer, buffer.buffer, output, output.buffer
    {
      Held() && Value().WellFormed()
    }

    ghost function Value(): Reassembler
      reads this, buffer, buffer.buffer, output
    {
      Reassembler(output.Value(), buffer.Slots(), buffer.Held(), eofIndex)
    }

    constructor (capacity: nat)
      requires 0 < capacity < 0x1_0000_0000_0000_0000
      ensures Valid() && fresh(buffer) && fresh(buffer.buffer) && fresh(output) && fresh(output.buffer)
      ensures Value() == EmptyReassembler(capacity)
    {
      buffer := new UnassembledBuffer(capacity);
      output := new ByteStream(capacity);
      this.capacity := capacity;
      eofIndex := None;
    }

    /** Receives a substring. The caller stays clear of the offers on which the unsigned room computation wraps. */
    method PushSubstring(data: seq<Byte>, index0: nat, eof: bool)
      requires Valid() && !Aborts(Value().out, data, index0)
      modifies this, buffer, buffer.buffer, output, output.buffer
      ensures Valid()
      ensures Value() == Push(old(Value()), data, index0, eof)
    {
      hide Reassembly.Settle, Reassembler.WellFormed, Kept, Start, Aborts;
      ghost var r := Value();
      PushContinues(r, data, index0, eof);
      if index0 + |data| < output.bytesWritten {
        return;
      }
      KeptWithinRing(r, data, index0);
      var sv, index := CutToRoom(data, index0);
      Settle(sv, index, if eof then Some(index + |sv|) else eofIndex);
    }

    /** Cuts off the part already assembled and what there is no slot for. */
    method CutToRoom(data: seq<Byte>, index0: nat) returns (sv: seq<Byte>, index: nat)
      requires output.Valid() && output.buffer.Length == capacity < 0x1_0000_0000_0000_0000
      requires !Aborts(output.Value(), data, index0) && output.bytesWritten <= index0 + |data|
      ensures index == Start(output.Value(), index0) && sv == Kept(output.Value(), data, index0)
    {
      hide Kept, Aborts;
      sv, index := data, index0;
      var bytesWritten := output.bytesWritten;
      if index < bytesWritten {
        sv := sv[bytesWritten - index..];
        index := bytesWritten;
      }
      assert sv == Unseen(output.Value(), data, index0);
      var maxLen := (capacity - (index - bytesWritten)) % 0x1_0000_0000_0000_0000;
      if |sv| > maxLen {
        sv := sv[..maxLen];
      }
      KeptBySteps(output.Value(), data, index0, sv);
    }

    lemma KeptBySteps(out: Stream, data: seq<Byte>, index: nat, sv: seq<Byte>)
      requires out.WellFormed() && out.capacity < 0x1_0000_0000_0000_0000
      requires |out.written| <= index + |data| && !Aborts(out, data, index)
      requires var room := (out.capacity - (Start(out, index) - |out.written|)) % 0x1_0000_0000_0000_0000;
               var unseen := Unseen(out, data, index);
               sv == if |unseen| > room then unseen[..room] else unseen
      ensures sv == Kept(out, data, index)
    {
      var start := Start(out, index);
      var edge := |out.written| + out.capacity;
      if start <= edge {
        var room := out.capacity - (start - |out.written|);
        assert room % 0x1_0000_0000_0000_0000 == room;
        if room < |data| - (start - index) {
          SliceOfSlice(data, start - index, |data|, 0, room);
        }
      }
    }

    /** Records the end, hands the bytes to the ring and its output to the stream, and ends the stream if due. */
    method Settle(sv: seq<Byte>, index: nat, eof: Option<nat>)
      requires Valid() && (sv == [] || WithinRing(Value(), sv, index))
      modifies this, buffer, buffer.buffer, output, output.buffer
      ensures Held()
      ensures Value() == Reassembly.Settle(old(Value()), sv, index, eof)
    {
      eofIndex := eof;
      if sv != [] {
        hide Reassembly.Feed;
        Feed(sv, index);
      }
      if eofIndex.Some? && output.bytesWritten == eofIndex.value {
        output.EndInput();
      }
    }

    method Feed(sv: seq<Byte>, index: nat)
      requires Valid() && sv != [] && WithinRing(Value(), sv, index)
      modifies buffer, buffer.buffer, output, output.buffer
      ensures Held()
      ensures Value() == Reassembly.Feed(old(Value()), sv, index)
    {
      hide RunEnd, Splice, Rotate, Beyond, Covered;
      ghost var r := Value();
      RunInRing(r, sv, index);
      var popped := buffer.PushSubstring(sv, index, output.bytesWritten);
      if popped != [] {
        var _ := output.Write(popped);
      } else {
        assert r.out.Write(popped) == r.out;
      }
    }

    /** Counts each byte waiting to be assembled once, however often it arrived. */
    method UnassembledBytes() returns (n: nat)
      requires Valid()
      ensures n == |Value().held|
    {
      n := buffer.usedSize;
      TotalCountsCovered(buffer.indexMap);
    }
  }
}
