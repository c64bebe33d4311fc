/** The ring of bytes that arrived ahead of the stream, with its map of filled intervals. */
module UnassembledBuffers {
  import opened Bytes
  import opened Intervals

  class UnassembledBuffer {
    const buffer: array<Byte>
    var indexMap: seq<Interval>
    var usedSize: nat
    var startPos: nat

    /** The map is separated and counted, and the start lies in the ring. */
    ghost predicate Valid()
      reads this
    {
      && Separated(indexMap)
      && usedSize == Total(indexMap)
      && startPos < buffer.Length
    }

    /** The ring as seen from its start. */
    ghost function Slots(): (s: seq<Byte>)
      reads this`startPos, buffer
      ensures |s| == buffer.Length
    {
      if startPos < buffer.Length then Rotate(buffer[..], startPos) else buffer[..]
    }

    lemma SlotsAt(k: nat)
      requires startPos < buffer.Length && k < buffer.Length
      ensures Slots()[k] == buffer[Slot(startPos, k, buffer.Length)]
    {
    }

    /** The indices recorded in the map. */
    ghost function Held(): set<nat>
      reads this
    {
      Covered(indexMap)
    }

    constructor (capacity: nat)
      requires 0 < capacity
      ensures Valid() && fresh(buffer) && buffer.Length == capacity
      ensures Slots() == seq(capacity, _ => 0 as Byte) && Held() == {}
    {
      buffer := new Byte[capacity](_ => 0);
      indexMap, usedSize, startPos := [], 0, 0;
    }

    /** Merges the interval into the map: the union of the indices, still separated and counted. */
    method MergeInterval(index0: nat, strSize0: nat)
      requires Separated(indexMap) && usedSize == Total(indexMap)
      requires 0 < strSize0
      modifies this`indexMap, this`usedSize
      ensures Separated(indexMap) && usedSize == Total(indexMap) == |Covered(indexMap)|
      ensures Covered(indexMap) == old(Covered(indexMap)) + Range(index0, index0 + strSize0)
    {
      var index: nat, strSize: nat := index0, strSize0;
      if indexMap == [] {
        indexMap := [Interval(index, strSize)];
        usedSize := usedSize + strSize;
        assert forall i :: Covers(indexMap, i) <==> indexMap[0].Has(i);
        FinishMerge(old(indexMap), index0, strSize0);
        return;
      }
      var iter: nat := LowerBound(indexMap, index);
      if iter == |indexMap| || (indexMap[iter].first > index && iter != 0) {
        iter := iter - 1;
      }
      assert forall k :: 0 <= k < iter ==> indexMap[k].End() < indexMap[iter].first <= index;
      while iter < |indexMap|
        invariant iter <= |indexMap|
        invariant 0 < strSize
        invariant Separated(indexMap) && usedSize == Total(indexMap)
        invariant forall k :: 0 <= k < iter ==> indexMap[k].End() < index
        invariant forall i :: Covers(indexMap, i) || index <= i < index + strSize <==>
                              old(Covers(indexMap, i)) || index0 <= i < index0 + strSize0
        decreases |indexMap| - iter
      {
        if index + strSize < indexMap[iter].first {
          PlaceInterval(iter, index, strSize);
          FinishMerge(old(indexMap), index0, strSize0);
          return;
        }
        if index > indexMap[iter].first + indexMap[iter].size {
          iter := iter + 1;
          continue;
        }
        index, strSize := TakeInterval(iter, index, strSize);
      }
      PlaceInterval(|indexMap|, index, strSize);
      FinishMerge(old(indexMap), index0, strSize0);
    }

    /** Inserts an interval that touches none of its neighbours at position `iter`. */
    method PlaceInterval(iter: nat, index: nat, strSize: nat)
      requires Separated(indexMap) && usedSize == Total(indexMap)
      requires iter <= |indexMap| && 0 < strSize
      requires forall k :: 0 <= k < iter ==> indexMap[k].End() < index
      requires iter < |indexMap| ==> index + strSize < indexMap[iter].first
      modifies this`indexMap, this`usedSize
      ensures indexMap == Inserted(old(indexMap), iter, Interval(index, strSize))
      ensures Separated(indexMap) && usedSize == Total(indexMap)
      ensures forall i :: Covers(indexMap, i) <==> old(Covers(indexMap, i)) || index <= i < index + strSize
    {
      var x := Interval(index, strSize);
      InsertedSeparated(indexMap, iter, x);
      InsertedTotal(indexMap, iter, x);
      indexMap := Inserted(indexMap, iter, x);
      usedSize := usedSize + strSize;
      forall i
        ensures Covers(indexMap, i) <==> Covers(old(indexMap), i) || index <= i < index + strSize
      {
        InsertedCovers(old(indexMap), iter, x, i);
      }
    }

    /** Takes the overlapping or touching entry at `iter` out of the map and joins it to the interval. */
    method TakeInterval(iter: nat, index: nat, strSize: nat) returns (index': nat, strSize': nat)
      requires Separated(indexMap) && usedSize == Total(indexMap)
      requires iter < |indexMap| && 0 < strSize
      requires forall k :: 0 <= k < iter ==> indexMap[k].End() < index
      requires index + strSize >= indexMap[iter].first && index <= indexMap[iter].End()
      modifies this`indexMap, this`usedSize
      ensures indexMap == Removed(old(indexMap), iter) && 0 < strSize'
      ensures Separated(indexMap) && usedSize == Total(indexMap)
      ensures forall k :: 0 <= k < iter ==> indexMap[k].End() < index'
      ensures forall i :: Covers(indexMap, i) || index' <= i < index' + strSize' <==>
                          old(Covers(indexMap, i)) || index <= i < index + strSize
    {
      var x := indexMap[iter];
      var last := Max(index + strSize, x.first + x.size);
      index' := Min(index, x.first);
      strSize' := last - index';
      RemovedTotal(indexMap, iter);
      RemovedSeparated(indexMap, iter);
      usedSize := usedSize - x.size;
      indexMap := Removed(indexMap, iter);
      forall i
        ensures Covers(indexMap, i) || index' <= i < index' + strSize' <==>
                Covers(old(indexMap), i) || index <= i < index + strSize
      {
        RemovedCovers(old(indexMap), iter, i);
      }
    }

    lemma FinishMerge(before: seq<Interval>, index: nat, strSize: nat)
      requires Separated(indexMap)
      requires forall i: int :: Covers(indexMap, i) <==> Covers(before, i) || index <= i < index + strSize
      ensures Total(indexMap) == |Covered(indexMap)|
      ensures Covered(indexMap) == Covered(before) + Range(index, index + strSize)
    {
      TotalCountsCovered(indexMap);
      forall i: nat
        ensures i in Covered(indexMap) <==> i in Covered(before) + Range(index, index + strSize)
      {
        CoveredIsCovers(indexMap, i);
        CoveredIsCovers(before, i);
      }
    }

    /** Copies `data` into the ring `offset` places after its start. */
    method CopyIn(offset: nat, data: seq<Byte>)
      requires Valid() && offset + |data| <= buffer.Length && offset < buffer.Length
      modifies buffer
      ensures Slots() == Splice(old(Slots()), offset, data)
    {
      hide Separated, Total, UnassembledBuffer.Slots;
      ghost var before := Slots();
      forall k | 0 <= k < buffer.Length
        ensures before[k] == buffer[Slot(startPos, k, buffer.Length)]
      {
        SlotsAt(k);
      }
      var pos := (startPos + offset) % buffer.Length;
      SlotIsModulo(startPos, offset, buffer.Length);
      if pos + |data| <= buffer.Length {
        Memcpy(buffer, pos, data);
      } else {
        var copy1 := buffer.Length - pos;
        Memcpy(buffer, pos, data[..copy1]);
        Memcpy(buffer, 0, data[copy1..]);
      }
      forall k | 0 <= k < buffer.Length
        ensures Slots()[k] == Splice(before, offset, data)[k]
      {
        SlotsAt(k);
      }
    }

    /** Stores a substring and hands over the run of recorded indices at `start`, byte for byte from the start of the
        ring on; the ring moves on by as much. */
    method PushSubstring(data: seq<Byte>, index: nat, start: nat) returns (popped: seq<Byte>)
      requires Valid() && 0 < |data| && start <= index && index + |data| <= start + buffer.Length
      requires forall i :: i in Held() ==> start <= i < start + buffer.Length
      modifies this, buffer
      ensures Valid()
      ensures var ring := Splice(old(Slots()), index - start, data);
              var held := old(Held()) + Range(index, index + |data|);
              var end := RunEnd(held, start);
              && end <= start + |ring| && popped == ring[..end - start]
              && Slots() == Rotate(ring, end - start) && Held() == Beyond(held, end)
    {
      hide RunEnd, Splice, Rotate, Covered, Separated, Total, Beyond, UnassembledBuffer.Slots;
      assert index >= start;
      assert index - start < buffer.Length;
      CopyIn(index - start, data);
      ghost var ring := Slots();
      MergeInterval(index, |data|);
      assert Slots() == ring;
      forall i | i in Held()
        ensures start <= i < start + buffer.Length
      {
        assert i in old(Held()) || i in Range(index, index + |data|);
      }
      popped := TakeRun(start);
    }

    /** Hands over the run of recorded indices at `start`, if there is one. */
    method TakeRun(start: nat) returns (popped: seq<Byte>)
      requires Valid() && forall i :: i in Held() ==> start <= i < start + buffer.Length
      modifies this
      ensures Valid()
      ensures var ring, held := old(Slots()), old(Held());
              var end := RunEnd(held, start);
              && end <= start + |ring| && popped == ring[..end - start]
              && Slots() == Rotate(ring, end - start) && Held() == Beyond(held, end)
    {
      hide RunEnd, Separated, Total, Covered, UnassembledBuffer.Slots;
      if indexMap == [] || indexMap[0].first != start {
        NothingAtStart(start);
        assert Beyond(Held(), start) == Held();
        return [];
      }
      hide Rotate, Beyond;
      RunIsFirstEntry(start);
      popped := PopFirst();
    }

    /** Takes the first interval out of the map and as many bytes from the start of the ring. */
    method PopFirst() returns (popped: seq<Byte>)
      requires Valid() && indexMap != [] && indexMap[0].size <= buffer.Length
      modifies this
      ensures Valid() && indexMap == old(indexMap)[1..]
      ensures popped == old(Slots())[..old(indexMap)[0].size]
      ensures Slots() == Rotate(old(Slots()), old(indexMap)[0].size)
    {
      var strSize := indexMap[0].size;
      popped := CopyOut(strSize);
      usedSize := usedSize - strSize;
      indexMap := indexMap[1..];
      Advance(strSize);
    }

    /** Moves the start of the ring on. */
    method Advance(strSize: nat)
      requires Valid() && strSize <= buffer.Length
      modifies this`startPos
      ensures Valid() && Slots() == Rotate(old(Slots()), strSize)
    {
      hide Separated, Total;
      SlotIsModulo(startPos, strSize, buffer.Length);
      RotateTwice(buffer[..], startPos, strSize);
      startPos := (startPos + strSize) % buffer.Length;
    }

    /** The first `strSize` bytes of the ring, in order. */
    method CopyOut(strSize: nat) returns (popped: seq<Byte>)
      requires Valid() && strSize <= buffer.Length
      ensures popped == Slots()[..strSize]
    {
      hide Separated, Total;
      if startPos + strSize <= buffer.Length {
        popped := buffer[startPos..startPos + strSize];
      } else {
        var copy1 := buffer.Length - startPos;
        popped := buffer[startPos..startPos + copy1] + buffer[..strSize - copy1];
      }
    }

    lemma NothingAtStart(start: nat)
      requires Valid() && forall i :: i in Held() ==> start <= i
      requires indexMap == [] || indexMap[0].first != start
      ensures RunEnd(Held(), start) == start
    {
      if indexMap != [] {
        EndUncovered(indexMap);
        CoveredIsCovers(indexMap, indexMap[0].first);
        FirstCovered(indexMap);
      }
      CoveredIsCovers(indexMap, start);
      RunEndUnique(Held(), start, start);
    }

    lemma RunIsFirstEntry(start: nat)
      requires Valid() && indexMap != [] && indexMap[0].first == start
      requires forall i :: i in Held() ==> i < start + buffer.Length
      ensures RunEnd(Held(), start) == indexMap[0].End() <= start + buffer.Length
      ensures Covered(indexMap[1..]) == Beyond(Held(), indexMap[0].End())
    {
      var end := indexMap[0].End();
      EndUncovered(indexMap);
      CoveredIsCovers(indexMap, end);
      forall i: nat | start <= i < end
        ensures i in Held()
      {
        assert indexMap[0].Has(i);
        CoveredIsCovers(indexMap, i);
      }
      assert end - 1 in Held();
      RunEndUnique(Held(), start, end);
      forall i: nat
        ensures i in Covered(indexMap[1..]) <==> i in Held() && end <= i
      {
        TailCovers(indexMap, i);
        CoveredIsCovers(indexMap, i);
        CoveredIsCovers(indexMap[1..], i);
      }
    }
  }
}
