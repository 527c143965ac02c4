/** CircularBuffer: a byte buffer that moves its contents to the front, grows and shrinks. */
module CircularBuffers {

  const MIN_CAPACITY := 2048

  /** memcpy or memmove within one array, towards the front: also right when the two stretches overlap. */
  method Move(a: array<int>, from: nat, n: nat)
    requires from + n <= a.Length
    modifies a
    ensures a[..n] == old(a[from..from + n])
  {
    ghost var was := a[..];
    for i := 0 to n
      invariant a[..i] == was[from..from + i] && a[from + i..] == was[from + i..]
    {
      assert a[from + i] == a[from + i..][0];
      a[i] := a[from + i];
      assert a[..i + 1] == a[..i] + [was[from + i]];
    }
  }

  /** memcpy from elsewhere */
  method CopyIn(a: array<int>, to: nat, bytes: seq<int>)
    requires to + |bytes| <= a.Length
    modifies a
    ensures a[to..to + |bytes|] == bytes && a[..to] == old(a[..to])
  {
    for i := 0 to |bytes|
      invariant a[to..to + i] == bytes[..i] && a[..to] == old(a[..to])
    {
      a[to + i] := bytes[i];
      assert a[to..to + (i + 1)] == a[to..to + i] + [bytes[i]];
    }
  }

  class CircularBuffer {
    var begIndex: nat
    var size: nat
    var capacity: nat
    var eof: bool
    var data: array<int>
    /** Everything written since the buffer was made or reset, and how much of it has been read. */
    ghost var written: seq<int>
    ghost var taken: nat

    ghost predicate Shaped()
      reads this`data, this`capacity, this`begIndex, this`size
    {
      data.Length == capacity >= MIN_CAPACITY && begIndex + size <= capacity
    }

    /** The bytes that wait to be read. */
    ghost function Contents(): seq<int>
      requires Shaped()
      reads this`data, this`capacity, this`begIndex, this`size, data
    {
      data[begIndex..begIndex + size]
    }

    /** What waits to be read is the rest of what was written. */
    ghost predicate Valid()
      reads this, data
    {
      Shaped() && taken <= |written| && Contents() == written[taken..]
    }

    constructor (capacity: nat)
      ensures Valid() && fresh(data) && written == [] && taken == 0 && !eof
      ensures this.capacity == if capacity < MIN_CAPACITY then MIN_CAPACITY else capacity
    {
      var cap := if capacity < MIN_CAPACITY then MIN_CAPACITY else capacity;
      begIndex, size, eof := 0, 0, false;
      this.capacity := cap;
      data := new int[cap](_ => 0);
      written, taken := [], 0;
    }

    /** The bytes go behind what is there, where there is room. */
    method Append(bytes: seq<int>)
      requires Shaped() && begIndex + size + |bytes| <= capacity
      modifies this`size, data
      ensures Shaped() && Contents() == old(Contents()) + bytes
    {
      CopyIn(data, begIndex + size, bytes);
      assert data[begIndex..begIndex + size] == old(data[..begIndex + size])[begIndex..];
      size := size + |bytes|;
      assert data[begIndex..begIndex + size]
          == data[begIndex..begIndex + old(size)] + data[begIndex + old(size)..begIndex + size];
    }

    method MoveToFront()
      requires Shaped()
      modifies this`begIndex, data
      ensures Shaped() && begIndex == 0 && Contents() == old(Contents())
    {
      Move(data, begIndex, size);
      begIndex := 0;
    }

    /** Doubling stops: each round adds to a capacity of at least 2048. */
    method Grow(bytes: nat)
      requires Shaped()
      modifies this`capacity, this`begIndex, this`data
      ensures Shaped() && fresh(data) && begIndex == 0 && size + bytes <= capacity && capacity >= old(capacity)
      ensures Contents() == old(Contents())
    {
      var tmp := data;
      var cap := capacity;
      while cap < size + bytes
        invariant cap >= capacity >= MIN_CAPACITY
        decreases size + bytes - cap
      {
        cap := cap * 2;
      }
      data := new int[cap](_ => 0);
      CopyIn(data, 0, tmp[begIndex..begIndex + size]);
      begIndex, capacity := 0, cap;
    }

    /**
     write(data, bytes): appended in place if it fits behind what is there, else after moving
     that to the front, else in a larger array.
     */
    method Write(bytes: seq<int>) returns (n: nat)
      requires Valid() && (bytes != [] ==> !eof)
      modifies this, data
      ensures Valid() && n == |bytes| && (data == old(data) || fresh(data))
      ensures written == old(written) + bytes && taken == old(taken) && eof == old(eof)
      ensures capacity >= old(capacity)
    {
      hide Contents;
      n := |bytes|;
      if bytes == [] {
        assert written == written + bytes;
        return;
      }
      if begIndex + size + |bytes| < capacity {
        Append(bytes);
      } else if size + |bytes| < capacity {
        MoveToFront();
        Append(bytes);
      } else {
        Grow(|bytes|);
        Append(bytes);
      }
      assert (written + bytes)[taken..] == written[taken..] + bytes;
      written := written + bytes;
    }

    /**
     read(data, bytes), once there is something to read or the end has been set; at the end it
     answers -1. Less than a quarter full, the array is halved, never below 2048.
     */
    method Read(bytes: nat) returns (n: int, out: seq<int>)
      requires Valid() && (bytes == 0 || size > 0 || eof)
      modifies this, data
      ensures Valid() && (data == old(data) || fresh(data))
      ensures written == old(written) && eof == old(eof)
      ensures taken == old(taken) + |out| && out == written[old(taken)..][..|out|]
      ensures n == if bytes > 0 && eof && old(taken) == |written| then -1 else |out|
      ensures |out| == if bytes < |written| - old(taken) then bytes else |written| - old(taken)
    {
      if bytes == 0 {
        return 0, [];
      }
      if eof && size == 0 {
        return -1, [];
      }
      var lenRead := if size < bytes then size else bytes;
      out := data[begIndex..begIndex + lenRead];
      n := lenRead;
      Drop(lenRead);
      if capacity / 4 > size && capacity / 2 > MIN_CAPACITY {
        Shrink();
      }
    }

    method Drop(n: nat)
      requires Valid() && n <= size
      modifies this`begIndex, this`size, this`taken
      ensures Valid() && taken == old(taken) + n && size == old(size) - n
      ensures old(data[begIndex..begIndex + n]) == written[old(taken)..][..n]
    {
      assert data[begIndex..begIndex + n] == Contents()[..n];
      assert data[begIndex + n..begIndex + size] == Contents()[n..];
      begIndex, size, taken := begIndex + n, size - n, taken + n;
    }

    method Shrink()
      requires Shaped() && size <= capacity / 2 && capacity / 2 >= MIN_CAPACITY
      modifies this`begIndex, this`data, this`capacity
      ensures Shaped() && fresh(data) && Contents() == old(Contents()) && capacity == old(capacity) / 2
    {
      var tmp := new int[capacity / 2](_ => 0);
      CopyIn(tmp, 0, data[begIndex..begIndex + size]);
      begIndex, data, capacity := 0, tmp, capacity / 2;
    }

    /** setEoF() */
    method SetEof()
      requires Valid()
      modifies this`eof
      ensures Valid() && eof
    {
      eof := true;
    }

    /** reset() */
    method Reset()
      requires Valid()
      modifies this`begIndex, this`size, this`written, this`taken
      ensures Valid() && written == [] && taken == 0 && capacity == old(capacity)
    {
      begIndex, size, written, taken := 0, 0, [], 0;
    }
  }
}
