/** The byte buffer of irono/net/Buffer.h: a growable array with a prependable,
    a readable and a writable region. Every method is proved against the readable
    bytes alone, `Contents()`, so callers may treat a buffer as a byte sequence. */
module Buffers {
  type Byte = b: int | 0 <= b < 256

  const CHEAP_PREPEND: nat := 8
  const INITIAL_SIZE: nat := 1024
  /** Size of the stack array that receives what does not fit in the buffer. */
  const EXTRA_BUF: nat := 65536

  /** What readv(2) answered: an errno, or the bytes it scattered (none means end of file). */
  datatype ReadResult = ReadError | ReadBytes(bytes: seq<Byte>)

  class Buffer {
    var store: array<Byte>
    var readerIndex: nat
    var writerIndex: nat

    ghost predicate Valid()
      reads this
    {
      readerIndex <= writerIndex <= store.Length && CHEAP_PREPEND <= store.Length
    }

    ghost function Repr(): set<object>
      reads this
    {
      {this, store}
    }

    ghost function Contents(): seq<Byte>
      requires Valid()
      reads this, store
    {
      store[readerIndex..writerIndex]
    }

    constructor ()
      ensures Valid() && fresh(Repr())
      ensures Contents() == []
      ensures WritableBytes() == INITIAL_SIZE && PrependableBytes() == CHEAP_PREPEND
    {
      store := new Byte[CHEAP_PREPEND + INITIAL_SIZE](i => 0);
      readerIndex := CHEAP_PREPEND;
      writerIndex := CHEAP_PREPEND;
    }

    function ReadableBytes(): (n: nat)
      requires Valid()
      reads this, store
      ensures n == |Contents()|
    {
      writerIndex - readerIndex
    }

    function WritableBytes(): nat
      requires Valid()
      reads this
    {
      store.Length - writerIndex
    }

    function PrependableBytes(): nat
      reads this
    {
      readerIndex
    }

    /** The first `len` readable bytes, left in place. */
    method Peek(len: nat) returns (bytes: seq<Byte>)
      requires Valid() && len <= ReadableBytes()
      ensures bytes == Contents()[..len]
    {
      bytes := store[readerIndex..readerIndex + len];
    }

    method Retrieve(len: nat)
      requires Valid() && len <= ReadableBytes()
      modifies this`readerIndex
      ensures Valid() && Contents() == old(Contents())[len..]
    {
      readerIndex := readerIndex + len;
    }

    method RetrieveAll()
      requires Valid()
      modifies this`readerIndex, this`writerIndex
      ensures Valid() && Contents() == []
      ensures PrependableBytes() == CHEAP_PREPEND
    {
      readerIndex := CHEAP_PREPEND;
      writerIndex := CHEAP_PREPEND;
    }

    method RetrieveAsString() returns (bytes: seq<Byte>)
      requires Valid()
      modifies this`readerIndex, this`writerIndex
      ensures Valid() && Contents() == [] && bytes == old(Contents())
    {
      bytes := store[readerIndex..writerIndex];
      RetrieveAll();
    }

    method Append(data: seq<Byte>)
      requires Valid()
      modifies Repr()
      ensures Valid() && fresh(Repr() - old(Repr()))
      ensures Contents() == old(Contents()) + data
      ensures readerIndex == old(readerIndex) || readerIndex == CHEAP_PREPEND
    {
      EnsureWritableBytes(|data|);
      Fill(data);
    }

    /** Copies `data` to the start of the writable region and counts it as readable. */
    method Fill(data: seq<Byte>)
      requires Valid() && |data| <= WritableBytes()
      modifies this`writerIndex, store
      ensures Valid() && Contents() == old(Contents()) + data
      ensures writerIndex == old(writerIndex) + |data|
    {
      ghost var before := Contents();
      forall i | 0 <= i < |data| {
        store[writerIndex + i] := data[i];
      }
      assert store[readerIndex..writerIndex] == before;
      assert store[writerIndex..writerIndex + |data|] == data;
      writerIndex := writerIndex + |data|;
    }

    method EnsureWritableBytes(len: nat)
      requires Valid()
      modifies Repr()
      ensures Valid() && fresh(Repr() - old(Repr()))
      ensures len <= WritableBytes()
      ensures Contents() == old(Contents())
      ensures readerIndex == old(readerIndex) || readerIndex == CHEAP_PREPEND
    {
      if WritableBytes() < len {
        MakeSpace(len);
      }
    }

    /** Called only when the writable region is too short. It then follows that the move to the
        front is a move to the left: the source asserts it, here it is proved. */
    method MakeSpace(len: nat)
      requires Valid() && WritableBytes() < len
      modifies Repr()
      ensures Valid() && fresh(Repr() - old(Repr()))
      ensures len <= WritableBytes()
      ensures Contents() == old(Contents())
      ensures readerIndex == old(readerIndex) || readerIndex == CHEAP_PREPEND
      // the array is reallocated exactly when moving the readable bytes cannot make room
      ensures store == old(store) <==> len + CHEAP_PREPEND <= old(WritableBytes() + PrependableBytes())
    {
      if WritableBytes() + PrependableBytes() < len + CHEAP_PREPEND {
        var before := store;
        store := new Byte[writerIndex + len](i reads before => if 0 <= i < before.Length then before[i] else 0);
      } else {
        assert CHEAP_PREPEND < readerIndex;
        var readable := ReadableBytes();
        forall i | 0 <= i < readable {
          store[CHEAP_PREPEND + i] := store[readerIndex + i];
        }
        readerIndex := CHEAP_PREPEND;
        writerIndex := readerIndex + readable;
      }
    }

    method Prepend(data: seq<Byte>)
      requires Valid() && |data| <= PrependableBytes()
      modifies this`readerIndex, store
      ensures Valid() && Contents() == data + old(Contents())
    {
      readerIndex := readerIndex - |data|;
      forall i | 0 <= i < |data| {
        store[readerIndex + i] := data[i];
      }
    }

    /** Scatter read: the kernel fills the writable region first and a stack array after it;
        the overflow is appended. The precondition is the size of the two iovecs. */
    method ReadFd(result: ReadResult) returns (n: int)
      requires Valid()
      requires result.ReadBytes? ==> |result.bytes| <= WritableBytes() + EXTRA_BUF
      modifies Repr()
      ensures Valid() && fresh(Repr() - old(Repr()))
      ensures result.ReadError? ==> n == -1 && Contents() == old(Contents())
      ensures result.ReadBytes? ==> n == |result.bytes| && Contents() == old(Contents()) + result.bytes
    {
      match result
      case ReadError =>
        n := -1;
      case ReadBytes(bytes) =>
        var writable := WritableBytes();
        n := |bytes|;
        if n <= writable {
          Fill(bytes);
        } else {
          Fill(bytes[..writable]);
          assert writerIndex == store.Length;
          Append(bytes[writable..]);
          CutAndRejoined(old(Contents()), bytes, writable);
        }
    }
  }

  lemma CutAndRejoined(s: seq<Byte>, bytes: seq<Byte>, n: nat)
    requires n <= |bytes|
    ensures (s + bytes[..n]) + bytes[n..] == s + bytes
  {
    assert bytes == bytes[..n] + bytes[n..];
  }
}
