/** The buffer with its array and its two indices, as src/net/Buffer.h and src/net/Buffer.cpp have it. */
module BufferImpl {
  import opened Bytes
  import opened BufferSpec

  /** std::copy: ascending, so it is also right for a range that moves towards the front of its own
      array, however the two ranges overlap. */
  method CopyForward(src: array<byte>, from: nat, to: nat, dst: array<byte>, at: nat)
    requires from <= to <= src.Length && at + (to - from) <= dst.Length
    requires src == dst ==> at <= from
    modifies dst
    ensures dst[at..at + (to - from)] == old(src[from..to])
    ensures forall p :: 0 <= p < at || at + (to - from) <= p < dst.Length ==> dst[p] == old(dst[p])
  {
    var k := 0;
    while k < to - from
      invariant 0 <= k <= to - from
      invariant forall p :: at <= p < at + k ==> dst[p] == old(src[p - at + from])
      invariant forall p :: 0 <= p < at || at + k <= p < dst.Length ==> dst[p] == old(dst[p])
      invariant src != dst ==> forall p :: 0 <= p < src.Length ==> src[p] == old(src[p])
    {
      dst[at + k] := src[from + k];
      k := k + 1;
    }
  }

  class Buffer {
    var data: array<byte>
    var size: nat
    var writerIndex: nat
    var readerIndex: nat
    ghost var copied: nat   // bytes moved by reallocations so far

    ghost predicate Valid()
      reads this
    {
      readerIndex <= writerIndex <= size == data.Length
    }

    /** The abstract buffer. */
    ghost function View(): (b: Buf)
      reads this, data
      requires Valid()
      ensures b.Valid() && b.Writer() == writerIndex
    {
      Buf(data[readerIndex..writerIndex], readerIndex, size, copied)
    }

    constructor (initSize: nat)
      ensures Valid() && fresh(data) && View() == Fresh(initSize)
    {
      size := initSize;
      data := new byte[initSize];
      writerIndex, readerIndex := 0, 0;
      copied := 0;
    }

    function ReadableBytes(): (n: nat)
      reads this, data
      requires Valid()
      ensures n == |View().contents|
    {
      writerIndex - readerIndex
    }

    function WritableBytes(): (n: nat)
      reads this, data
      requires Valid()
      ensures n == View().Writable()
    {
      size - writerIndex
    }

    /** What readFd offers to readv. */
    function Room(): (n: nat)
      reads this, data
      requires Valid()
      ensures n == BufferSpec.Room(View())
    {
      WritableBytes() + if WritableBytes() < SPILL then SPILL else 0
    }

    /** The readable bytes, as a reader sees them through `peek`. */
    function Peek(): (s: seq<byte>)
      reads this, data
      requires Valid()
      ensures s == View().contents
    {
      data[readerIndex..writerIndex]
    }

    method RetrieveAll()
      requires Valid()
      modifies this`readerIndex, this`writerIndex
      ensures Valid() && View() == BufferSpec.RetrieveAll(old(View()))
    {
      readerIndex, writerIndex := 0, 0;
    }

    method RetrieveAllAsString() returns (s: seq<byte>)
      requires Valid()
      modifies this`readerIndex, this`writerIndex
      ensures Valid() && s == old(View().contents) && View() == BufferSpec.RetrieveAll(old(View()))
    {
      s := Peek();
      RetrieveAll();
    }

    method Retrieve(n: nat)
      requires Valid() && n <= |View().contents|
      modifies this`readerIndex, this`writerIndex
      ensures Valid() && View() == BufferSpec.Retrieve(old(View()), n)
    {
      if n < ReadableBytes() {
        readerIndex := readerIndex + n;
      } else {
        RetrieveAll();
      }
    }

    method EnsureWritableBytes(len: nat)
      requires Valid()
      modifies this, data
      ensures Valid() && (data == old(data) || fresh(data))
      ensures View() == Ensure(old(View()), len)
    {
      if len <= WritableBytes() {
        return;
      }
      ghost var contents := Peek();
      if readerIndex + WritableBytes() >= len {
        var readable := ReadableBytes();
        CopyForward(data, readerIndex, writerIndex, data, 0);
        readerIndex := 0;
        writerIndex := readable;
      } else {
        var newSize := Max(size * 2, ReadableBytes() + len);
        var newData := new byte[newSize];
        CopyForward(data, readerIndex, writerIndex, newData, 0);
        copied := copied + (writerIndex - readerIndex);
        writerIndex := ReadableBytes();
        readerIndex := 0;
        data := newData;
        size := newSize;
      }
      assert data[readerIndex..writerIndex] == contents;
    }

    method Append(bytes: seq<byte>)
      requires Valid()
      modifies this, data
      ensures Valid() && (data == old(data) || fresh(data))
      ensures View() == BufferSpec.Append(old(View()), bytes)
    {
      EnsureWritableBytes(|bytes|);
      Store(bytes);
    }

    /** Copy bytes to the writable part and advance the writer. */
    method Store(bytes: seq<byte>)
      requires Valid() && |bytes| <= size - writerIndex
      modifies this`writerIndex, data
      ensures Valid() && writerIndex == old(writerIndex) + |bytes|
      ensures View() == old(View()).(contents := old(View().contents) + bytes)
    {
      var k := 0;
      while k < |bytes|
        modifies data
        invariant 0 <= k <= |bytes|
        invariant forall p :: 0 <= p < writerIndex ==> data[p] == old(data[p])
        invariant forall p :: writerIndex <= p < writerIndex + k ==> data[p] == bytes[p - writerIndex]
      {
        data[writerIndex + k] := bytes[k];
        k := k + 1;
      }
      writerIndex := writerIndex + |bytes|;
      assert data[readerIndex..writerIndex] == old(View().contents) + bytes;
    }

    /** readv on the writable part and, when it is smaller than the spill area, on that too: the first
        vector is filled before the second. */
    method Readv(spill: array<byte>, result: ReadResult) returns (n: int)
      requires Valid() && Fits(View(), result) && spill.Length == SPILL && spill != data
      modifies data, spill
      ensures n == result.N()
      ensures Valid() && View() == old(View())
      ensures n >= 0 ==>
                var k := if n <= size - writerIndex then n else size - writerIndex;
                && data[writerIndex..writerIndex + k] == result.bytes[..k]
                && n - k <= SPILL && spill[..n - k] == result.bytes[k..]
    {
      if result.Failed? {
        return -1;
      }
      n := |result.bytes|;
      var writable := size - writerIndex;
      var i := 0;
      while i < n
        invariant 0 <= i <= n
        invariant forall p :: 0 <= p < writerIndex ==> data[p] == old(data[p])
        invariant forall p :: 0 <= p < i && p < writable ==> data[writerIndex + p] == result.bytes[p]
        invariant forall p :: writable <= p < i ==> spill[p - writable] == result.bytes[p]
      {
        if i < writable {
          data[writerIndex + i] := result.bytes[i];
        } else {
          spill[i - writable] := result.bytes[i];
        }
        i := i + 1;
      }
    }

    /** Account for n bytes that readv stored in the writable part and the spill area. */
    method Accept(spill: array<byte>, n: nat, ghost bytes: seq<byte>)
      requires Valid() && spill != data && |bytes| == n
      requires var k := if n <= size - writerIndex then n else size - writerIndex;
               && data[writerIndex..writerIndex + k] == bytes[..k]
               && n - k <= spill.Length && spill[..n - k] == bytes[k..]
      modifies this, data
      ensures Valid() && (data == old(data) || fresh(data))
      ensures View() == Absorb(old(View()), bytes)
    {
      var writable := WritableBytes();
      ghost var before := View();
      assert data[readerIndex..size] == data[readerIndex..writerIndex] + data[writerIndex..size];
      if n <= writable {
        assert bytes[..n] == bytes;
        writerIndex := writerIndex + n;
        assert data[readerIndex..writerIndex] == before.contents + bytes;
      } else {
        writerIndex := size;
        assert data[readerIndex..writerIndex] == before.contents + bytes[..writable];
        Append(spill[..n - writable]);
      }
    }

    /** readFd; `first` and `retry` are what the kernel answers to the first readv and to the retry. */
    method ReadFd(first: ReadResult, retry: ReadResult) returns (n: int)
      requires Valid() && Fits(View(), first) && Fits(View(), retry)
      modifies this, data
      ensures Valid() && (data == old(data) || fresh(data))
      ensures n == if first.Delivered? then |first.bytes| else -1
      ensures View() == BufferSpec.ReadFd(old(View()), first, retry)
      ensures first.Delivered? ==> View().contents == old(View().contents) + first.bytes
      ensures first.Failed? && retry.Delivered? ==> View().contents == old(View().contents) + retry.bytes
      ensures first.Failed? && retry.Failed? ==> View() == old(View())
    {
      var spill := new byte[SPILL];
      n := Readv(spill, first);
      if n < 0 {
        var again := Readv(spill, retry);
        if again >= 0 {
          Accept(spill, again, retry.bytes);
        }
      } else {
        Accept(spill, n, first.bytes);
      }
    }

    method AppendInt(t: IntType, v: int)
      requires Valid() && InRange(t, v)
      modifies this, data
      ensures Valid() && (data == old(data) || fresh(data))
      ensures View() == AppendItem(old(View()), Item(t, v))
      ensures View().contents == old(View().contents) + Encode(Item(t, v))
    {
      Append(BigEndian(ToRaw(t, v), t.width.Size()));
    }

    method PeekInt(t: IntType) returns (v: int)
      requires Valid() && t.width.Size() <= |View().contents|
      ensures v == ReadItem(View(), t).0 && InRange(t, v)
      ensures Encode(Item(t, v)) <= View().contents
    {
      var raw := data[readerIndex..readerIndex + t.width.Size()];
      assert raw == View().contents[..t.width.Size()];
      v := Decode(t, raw);
      EncodeDecode(t, raw);
    }

    method ReadInt(t: IntType) returns (v: int)
      requires Valid() && t.width.Size() <= |View().contents|
      modifies this`readerIndex, this`writerIndex
      ensures Valid() && (v, View()) == ReadItem(old(View()), t) && InRange(t, v)
      ensures old(View().contents) == Encode(Item(t, v)) + View().contents
    {
      v := PeekInt(t);
      Retrieve(t.width.Size());
    }
  }
}
