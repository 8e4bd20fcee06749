/** The sliding byte buffer: a plain FIFO queue of bytes kept in one array that compacts or grows. */
module Buffers {
  import opened Bytes

  const CHEAP_PREPEND: nat := 8
  const INITIAL_SIZE: nat := 1024
  const EXTRA_SIZE: nat := 65536

  function Max(a: nat, b: nat): nat { if a < b then b else a }

  class Buffer {
    const initialSize: nat
    var store: array<byte>
    var readIndex: nat
    var writeIndex: nat
    ghost var peak: nat  // the largest number of readable bytes ever held

    /** The index discipline, and the bound on the storage in terms of the largest content. */
    ghost predicate Valid()
      reads this, store
    {
      && CHEAP_PREPEND <= readIndex <= writeIndex <= store.Length
      && (readIndex == writeIndex ==> readIndex == CHEAP_PREPEND)
      && writeIndex - readIndex <= peak
      && store.Length <= CHEAP_PREPEND + Max(initialSize, 2 * peak)
    }

    /** The queue: the readable bytes. */
    function Contents(): (s: seq<byte>)
      requires CHEAP_PREPEND <= readIndex <= writeIndex <= store.Length
      reads this, store
      ensures |s| == writeIndex - readIndex
    {
      store[readIndex..writeIndex]
    }

    constructor (size: nat)
      ensures Valid() && fresh(store)
      ensures Contents() == [] && peak == 0 && initialSize == size
    {
      initialSize := size;
      store := new byte[CHEAP_PREPEND + size](_ => 0);
      readIndex := CHEAP_PREPEND;
      writeIndex := CHEAP_PREPEND;
      peak := 0;
    }

    method ReadableBytes() returns (n: nat)
      requires Valid()
      ensures n == |Contents()|
    {
      n := writeIndex - readIndex;
    }

    method Peek(n: nat) returns (s: seq<byte>)
      requires Valid() && n <= |Contents()|
      ensures s == Contents()[..n]
    {
      s := store[readIndex..readIndex + n];
    }

    method RetrieveAll()
      requires Valid()
      modifies this`readIndex, this`writeIndex
      ensures Valid() && Contents() == []
    {
      readIndex := CHEAP_PREPEND;
      writeIndex := CHEAP_PREPEND;
    }

    /** Consuming more than is there consumes everything. */
    method Retrieve(len: nat)
      requires Valid()
      modifies this`readIndex, this`writeIndex
      ensures Valid()
      ensures Contents() == if len < |old(Contents())| then old(Contents())[len..] else []
    {
      if len < writeIndex - readIndex {
        readIndex := readIndex + len;
      } else {
        RetrieveAll();
      }
    }

    method RetrieveAsString(len: nat) returns (result: seq<byte>)
      requires Valid() && len <= |Contents()|
      modifies this`readIndex, this`writeIndex
      ensures Valid()
      ensures result == old(Contents())[..len] && Contents() == old(Contents())[len..]
    {
      result := Peek(len);
      Retrieve(len);
    }

    /**
     * Grow, or move the readable bytes to the front. The forward copy reads each cell before it is
     * overwritten because the destination lies strictly to the left of the source.
     */
    method MakeSpace(len: nat)
      requires Valid() && store.Length - writeIndex < len
      modifies this`store, this`readIndex, this`writeIndex, store
      ensures CHEAP_PREPEND <= readIndex <= writeIndex && writeIndex + len <= store.Length
      ensures Contents() == old(Contents())
      ensures readIndex == writeIndex ==> readIndex == CHEAP_PREPEND
      ensures store == old(store) || fresh(store)
      ensures store.Length <= old(store.Length) || store.Length <= CHEAP_PREPEND + 2 * (|Contents()| + len)
    {
      if store.Length - writeIndex + readIndex < len + CHEAP_PREPEND {
        Resize(writeIndex + len);
      } else {
        assert readIndex > CHEAP_PREPEND;
        Compact();
      }
    }

    method Resize(size: nat)
      requires CHEAP_PREPEND <= readIndex <= writeIndex <= store.Length <= size
      modifies this`store
      ensures fresh(store) && store.Length == size && Contents() == old(Contents())
    {
      var grown := new byte[size](_ => 0);
      for i := 0 to store.Length
        invariant unchanged(this)
        invariant forall k :: 0 <= k < i ==> grown[k] == store[k]
      {
        grown[i] := store[i];
      }
      assert grown[readIndex..writeIndex] == store[readIndex..writeIndex];
      store := grown;
    }

    method Compact()
      requires CHEAP_PREPEND < readIndex <= writeIndex <= store.Length
      modifies this`readIndex, this`writeIndex, store
      ensures readIndex == CHEAP_PREPEND <= writeIndex <= store.Length
      ensures writeIndex - readIndex == old(writeIndex - readIndex)
      ensures Contents() == old(Contents())
    {
      var readable := writeIndex - readIndex;
      ghost var was := Contents();
      for i := 0 to readable
        invariant unchanged(this)
        invariant forall k :: 0 <= k < i ==> store[CHEAP_PREPEND + k] == was[k]
        invariant forall k :: i <= k < readable ==> store[readIndex + k] == was[k]
      {
        store[CHEAP_PREPEND + i] := store[readIndex + i];
      }
      readIndex := CHEAP_PREPEND;
      writeIndex := readIndex + readable;
      assert Contents() == was;
    }

    method EnsureWritableBytes(len: nat)
      requires Valid()
      modifies this`store, this`readIndex, this`writeIndex, store
      ensures CHEAP_PREPEND <= readIndex <= writeIndex && writeIndex + len <= store.Length
      ensures Contents() == old(Contents())
      ensures readIndex == writeIndex ==> readIndex == CHEAP_PREPEND
      ensures store == old(store) || fresh(store)
      ensures store.Length <= old(store.Length) || store.Length <= CHEAP_PREPEND + 2 * (|Contents()| + len)
    {
      if store.Length - writeIndex < len {
        MakeSpace(len);
      }
    }

    /** Copy bytes into the writable area, without moving the write index. */
    method Place(data: seq<byte>)
      requires CHEAP_PREPEND <= readIndex <= writeIndex && writeIndex + |data| <= store.Length
      modifies store
      ensures store[readIndex..writeIndex + |data|] == old(Contents()) + data
    {
      for i := 0 to |data|
        invariant forall k :: 0 <= k < i ==> store[writeIndex + k] == data[k]
        invariant forall k :: 0 <= k < writeIndex ==> store[k] == old(store[k])
      {
        store[writeIndex + i] := data[i];
      }
    }

    /** Bytes that are known to fit become readable. */
    method Fill(data: seq<byte>)
      requires Valid() && writeIndex + |data| <= store.Length
      modifies this`writeIndex, this`peak, store
      ensures Valid() && Contents() == old(Contents()) + data
      ensures writeIndex == old(writeIndex) + |data|
      ensures peak == Max(old(peak), |Contents()|)
    {
      Place(data);
      writeIndex := writeIndex + |data|;
      peak := Max(peak, writeIndex - readIndex);
    }

    method Append(data: seq<byte>)
      requires Valid()
      modifies this, store
      ensures Valid() && (store == old(store) || fresh(store))
      ensures Contents() == old(Contents()) + data
      ensures peak == Max(old(peak), |Contents()|)
    {
      EnsureWritableBytes(|data|);
      Place(data);
      writeIndex := writeIndex + |data|;
      peak := Max(peak, writeIndex - readIndex);
    }

    /**
     * `readFd`: `readv` fills the writable area first and a 64 KiB stack buffer with the excess.
     * `arrived` is what the kernel delivered, at most what the two segments hold; None is an error.
     */
    method ReadFd(arrived: Option<seq<byte>>) returns (n: int)
      requires Valid()
      requires arrived.Some? ==> |arrived.value| <= store.Length - writeIndex + EXTRA_SIZE
      modifies this, store
      ensures Valid() && (store == old(store) || fresh(store))
      ensures n == if arrived.Some? then |arrived.value| else -1
      ensures Contents() == old(Contents()) + (if arrived.Some? then arrived.value else [])
      ensures peak == Max(old(peak), |Contents()|)
    {
      if arrived.None? {
        return -1;
      }
      var data := arrived.value;
      var writable := store.Length - writeIndex;
      n := |data|;
      if n <= writable {
        Fill(data);
      } else {
        Fill(data[..writable]);
        assert old(Contents()) + data == old(Contents()) + data[..writable] + data[writable..];
        Append(data[writable..]);
      }
    }
  }
}
