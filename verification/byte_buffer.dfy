// The part of java.nio.ByteBuffer that the renderer's constructor relies on:
// a zero-filled direct buffer of fixed capacity whose limit stays at the
// capacity, a relative bulk put, and an explicit position.

module Buffers {

  /** A Java `byte`: a signed 8-bit value. */
  type Byte = b: int | -128 <= b < 128

  class ByteBuffer {
    /** The backing store; its length is the buffer's capacity (and limit). */
    const data: array<Byte>
    /** Where the next relative put writes. */
    var position: nat

    ghost predicate Valid()
      reads this
    {
      position <= data.Length
    }

    /** ByteBuffer.allocateDirect(capacity): all bytes zero, position 0. */
    constructor AllocateDirect(capacity: nat)
      ensures Valid() && fresh(data)
      ensures data.Length == capacity && position == 0
      ensures forall k :: 0 <= k < capacity ==> data[k] == 0
    {
      data := new Byte[capacity](_ => 0);
      position := 0;
    }

    /**
     * Relative bulk put of `src`. When fewer than |src| bytes remain before
     * the limit, no byte is transferred and the position does not move (Java
     * throws BufferOverflowException); that outcome is `ok == false`.
     */
    method Put(src: seq<Byte>) returns (ok: bool)
      requires Valid()
      modifies this, data
      ensures Valid()
      ensures ok <==> old(position) + |src| <= data.Length
      ensures ok ==> position == old(position) + |src|
      ensures ok ==> data[..] == old(data[..position]) + src + old(data[position + |src|..])
      ensures !ok ==> position == old(position) && data[..] == old(data[..])
    {
      if position + |src| > data.Length {
        return false;
      }
      var i := 0;
      while i < |src|
        invariant 0 <= i <= |src| && position == old(position)
        invariant forall k :: 0 <= k < data.Length ==>
          data[k] == if position <= k < position + i then src[k - position] else old(data[k])
      {
        data[position + i] := src[i];
        i := i + 1;
      }
      assert data[..] == old(data[..position]) + src + old(data[position + |src|..]);
      position := position + |src|;
      ok := true;
    }

    /** ByteBuffer.position(newPosition); Java rejects a position past the limit. */
    method SetPosition(newPosition: nat)
      requires Valid() && newPosition <= data.Length
      modifies this`position
      ensures Valid() && position == newPosition
    {
      position := newPosition;
    }
  }
}
