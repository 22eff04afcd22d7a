/** The two-region circular buffer: a fixed array in which region A holds the oldest
    bytes and region B, when in use, starts at the front of the array and holds the
    newer ones. Proved to be a bounded FIFO of bytes. */
module CircularBuffers {

  newtype byte = b: int | 0 <= b < 256

  datatype Pointer = Null | At(offset: nat)

  function Larger(a: int, b: int): int {
    if a < b then b else a
  }

  lemma DropOfConcat(a: seq<byte>, b: seq<byte>, n: nat)
    requires n <= |a| + |b|
    ensures (a + b)[n..] == if n < |a| then a[n..] + b else b[n - |a|..]
  {
  }

  class CircularBuffer {
    const mBuffer: array<byte>
    var mARegionPointer: nat
    var mARegionSize: nat
    var mBRegionPointer: Pointer
    var mBRegionSize: nat

    /** Both regions lie inside the array. */
    ghost predicate InBounds()
      reads this
    {
      && mARegionPointer + mARegionSize <= mBuffer.Length
      && (mBRegionPointer.Null? ==> mBRegionSize == 0)
      && (mBRegionPointer.At? ==> mBRegionPointer.offset + mBRegionSize <= mBuffer.Length)
    }

    ghost predicate Valid()
      reads this
    {
      && InBounds()
      && (mARegionSize == 0 ==> mARegionPointer == 0)
      && (mBRegionPointer.At? ==>
            mARegionSize > 0 && mARegionPointer > 0 && mBRegionPointer.offset == 0 && mBRegionSize <= mARegionPointer)
    }

    ghost function RegionA(): (r: seq<byte>)
      requires InBounds()
      reads this, mBuffer
      ensures |r| == mARegionSize
    {
      mBuffer[mARegionPointer..mARegionPointer + mARegionSize]
    }

    ghost function RegionB(): (r: seq<byte>)
      requires InBounds()
      reads this, mBuffer
      ensures |r| == mBRegionSize
    {
      if mBRegionPointer.Null? then [] else mBuffer[mBRegionPointer.offset..mBRegionPointer.offset + mBRegionSize]
    }

    ghost function Contents(): seq<byte>
      requires Valid()
      reads this, mBuffer
    {
      RegionA() + RegionB()
    }

    /** How many bytes the next Write can take. */
    ghost function WriteSpace(): nat
      requires Valid()
      reads this
    {
      var afterA := mBuffer.Length - mARegionPointer - mARegionSize;
      if mBRegionPointer.At? then mARegionPointer - mBRegionSize
      else if afterA < mARegionPointer then mARegionPointer
      else afterA
    }

    constructor (capacity: nat)
      ensures Valid() && fresh(mBuffer) && mBuffer.Length == capacity && Contents() == []
      ensures WriteSpace() == capacity
    {
      mBuffer := new byte[capacity];
      mARegionPointer, mARegionSize := 0, 0;
      mBRegionPointer, mBRegionSize := Null, 0;
    }

    function GetStoredSize(): (n: nat)
      requires Valid()
      reads this, mBuffer
      ensures n == |Contents()|
    {
      mARegionSize + mBRegionSize
    }

    /** The length of the stretch that starts with the oldest byte: everything stored unless
        region B is in use, and then everything before it. */
    function GetContiguiousBytes(): (n: nat)
      requires Valid()
      reads this, mBuffer
      ensures n <= |Contents()|
      ensures n == 0 <==> Contents() == []
      ensures Contents()[n..] == if mBRegionPointer.At? then RegionB() else []
    {
      if mARegionSize > 0 then mARegionSize else mBRegionSize
    }

    /** The bytes a flush hands out are the oldest ones. */
    function GetBufferStart(): (start: Pointer)
      requires Valid()
      reads this, mBuffer
      ensures start.Null? <==> Contents() == []
      ensures start.At? ==>
        && start.offset + GetContiguiousBytes() <= mBuffer.Length
        && mBuffer[start.offset..start.offset + GetContiguiousBytes()] == Contents()[..GetContiguiousBytes()]
    {
      if mARegionSize > 0 then At(mARegionPointer) else mBRegionPointer
    }

    function GetAFreeSpace(): int
      reads this
    {
      mBuffer.Length - mARegionPointer - mARegionSize
    }

    function GetSpaceBeforeA(): int
      reads this
    {
      mARegionPointer
    }

    function GetBFreeSpace(): int
      reads this
    {
      if mBRegionPointer.Null? then 0 else mARegionPointer - mBRegionPointer.offset - mBRegionSize
    }

    method AllocateB()
      requires Valid() && mBRegionPointer.Null? && mARegionPointer > 0
      modifies this`mBRegionPointer
      ensures Valid() && mBRegionPointer == At(0)
      ensures Contents() == old(Contents())
    {
      mBRegionPointer := At(0);
    }

    /** memcpy into the buffer. */
    method CopyIn(to: nat, data: seq<byte>)
      requires to + |data| <= mBuffer.Length
      modifies mBuffer
      ensures mBuffer[..to + |data|] == old(mBuffer[..to]) + data
      ensures forall i | to + |data| <= i < mBuffer.Length :: mBuffer[i] == old(mBuffer[i])
    {
      forall i | 0 <= i < |data| {
        mBuffer[to + i] := data[i];
      }
    }

    method AppendToB(data: seq<byte>)
      requires Valid() && mBRegionPointer.At? && |data| <= GetBFreeSpace()
      modifies this`mBRegionSize, mBuffer
      ensures Valid() && Contents() == old(Contents()) + data
    {
      ghost var a, b := RegionA(), RegionB();
      CopyIn(mBRegionPointer.offset + mBRegionSize, data);
      assert RegionA() == a;
      mBRegionSize := mBRegionSize + |data|;
      assert RegionA() == a && RegionB() == b + data;
      assert a + (b + data) == (a + b) + data;
    }

    method AppendToA(data: seq<byte>)
      requires Valid() && mBRegionPointer.Null? && |data| <= GetAFreeSpace()
      modifies this`mARegionSize, mBuffer
      ensures Valid() && Contents() == old(Contents()) + data
    {
      ghost var head := mBuffer[..mARegionPointer + mARegionSize];
      var end := mARegionPointer + mARegionSize + |data|;
      CopyIn(mARegionPointer + mARegionSize, data);
      assert mBuffer[mARegionPointer..end] == mBuffer[..end][mARegionPointer..];
      assert (head + data)[mARegionPointer..] == head[mARegionPointer..] + data;
      mARegionSize := mARegionSize + |data|;
    }

    /** All or nothing: the data is appended if and only if it fits the write space. A
        refused write leaves that space as it was, an accepted one uses it up, unless there
        is as much or more before region A. */
    method Write(data: seq<byte>) returns (ok: bool)
      requires Valid()
      modifies this, mBuffer
      ensures Valid()
      ensures ok <==> |data| <= old(WriteSpace())
      ensures !ok ==> WriteSpace() == old(WriteSpace())
      ensures ok ==>
                (WriteSpace() ==
                 if old(mBRegionPointer.At? || mBuffer.Length - mARegionPointer - mARegionSize < mARegionPointer)
                 then old(WriteSpace()) - |data|
                 else Larger(old(WriteSpace()) - |data|, old(mARegionPointer)))
      ensures mARegionPointer == old(mARegionPointer)
      ensures Contents() == if ok then old(Contents()) + data else old(Contents())
    {
      if mBRegionPointer.Null? && GetAFreeSpace() < GetSpaceBeforeA() {
        AllocateB();
      }
      if mBRegionPointer.At? {
        if GetBFreeSpace() < |data| {
          return false;
        }
        AppendToB(data);
      } else {
        if GetAFreeSpace() < |data| {
          return false;
        }
        AppendToA(data);
      }
      ok := true;
    }

    method RemoveFromA(cnt: nat) returns (rest: nat)
      requires InBounds()
      modifies this`mARegionPointer, this`mARegionSize
      ensures InBounds() && mARegionPointer + mARegionSize == old(mARegionPointer + mARegionSize)
      ensures rest == if cnt <= old(mARegionSize) then 0 else cnt - old(mARegionSize)
      ensures mARegionSize == old(mARegionSize) - (cnt - rest)
      ensures RegionA() == old(RegionA())[cnt - rest..] && RegionB() == old(RegionB())
    {
      var aRemove := if cnt > mARegionSize then mARegionSize else cnt;
      mARegionSize := mARegionSize - aRemove;
      mARegionPointer := mARegionPointer + aRemove;
      rest := cnt - aRemove;
    }

    method RemoveFromB(cnt: nat)
      requires InBounds()
      modifies this`mBRegionPointer, this`mBRegionSize
      ensures InBounds() && RegionB() == old(RegionB())[if cnt <= old(mBRegionSize) then cnt else old(mBRegionSize)..]
      ensures RegionA() == old(RegionA())
      ensures cnt == 0 ==> mBRegionPointer == old(mBRegionPointer) && mBRegionSize == old(mBRegionSize)
    {
      if cnt > 0 && mBRegionSize > 0 {
        var bRemove := if cnt > mBRegionSize then mBRegionSize else cnt;
        mBRegionSize := mBRegionSize - bRemove;
        mBRegionPointer := At(mBRegionPointer.offset + bRemove);
      }
    }

    /** An empty region A is replaced by what is left of region B, moved to the front. */
    method MoveBToA()
      requires InBounds() && mARegionSize == 0
      modifies this, mBuffer
      ensures Valid() && Contents() == old(RegionB())
      ensures mBRegionPointer.Null? && mARegionPointer == 0
    {
      ghost var rest := RegionB();
      if mBRegionSize > 0 {
        var from := mBRegionPointer.offset;
        if from != 0 {
          forall i | 0 <= i < mBRegionSize {
            mBuffer[i] := mBuffer[from + i];
          }
        }
        assert mBuffer[..mBRegionSize] == rest;
        mARegionPointer, mARegionSize := 0, mBRegionSize;
        mBRegionPointer, mBRegionSize := Null, 0;
      } else {
        mBRegionPointer, mBRegionSize := Null, 0;
        mARegionPointer, mARegionSize := 0, 0;
      }
    }

    /** Drops the oldest bytes; more than there are empties the buffer. Once region A is
        gone all free space can be written, before that what was in front of it as well. */
    method Remove(len: nat)
      requires Valid()
      modifies this, mBuffer
      ensures Valid()
      ensures Contents() == old(Contents())[if len <= |old(Contents())| then len else |old(Contents())|..]
      ensures Contents() == [] ==> mARegionPointer == 0
      ensures old(GetContiguiousBytes()) <= len ==> GetContiguiousBytes() == |Contents()|
      ensures old(mARegionSize) <= len ==> mBRegionPointer.Null? && WriteSpace() == mBuffer.Length - |Contents()|
      ensures len < old(mARegionSize) ==>
                && mBRegionPointer == old(mBRegionPointer) && mBRegionSize == old(mBRegionSize)
                && WriteSpace() == if mBRegionPointer.At? then old(WriteSpace()) + len
                                   else Larger(old(mBuffer.Length - mARegionPointer - mARegionSize), old(mARegionPointer) + len)
    {
      hide RegionA, RegionB;
      ghost var a, b := RegionA(), RegionB();
      ghost var dropped := if len <= |a| + |b| then len else |a| + |b|;
      assert Contents() == a + b && |a + b| == |a| + |b|;
      DropOfConcat(a, b, dropped);
      var rest := RemoveFromA(len);
      assert rest == if len <= |a| then 0 else len - |a|;
      RemoveFromB(rest);
      if mARegionSize == 0 {
        assert RegionB() == b[dropped - |a|..];
        MoveBToA();
      } else {
        assert RegionA() == a[dropped..] && RegionB() == b;
      }
    }

    /** The write space is the free part of region B when that is in use, and otherwise the
        larger side of region A: at least half of what is free. */
    lemma WriteSpaceIsLargerSide()
      requires Valid()
      ensures mBRegionPointer.At? ==> WriteSpace() == mARegionPointer - mBRegionSize
      ensures mBRegionPointer.Null? ==>
                && WriteSpace() == Larger(mBuffer.Length - mARegionPointer - mARegionSize, mARegionPointer)
                && 2 * WriteSpace() >= mBuffer.Length - |Contents()|
    {
    }

    /** The write space falls short of all the free space exactly when bytes are free on
        the side that cannot be written next. */
    lemma WriteSpaceIsAllFreeIff()
      requires Valid()
      ensures WriteSpace() <= mBuffer.Length - |Contents()|
      ensures WriteSpace() == mBuffer.Length - |Contents()|
         <==> mARegionPointer == 0 || mARegionPointer + mARegionSize == mBuffer.Length
    {
    }
  }
}
