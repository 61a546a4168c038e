/** `BufferEndian`: a byte queue over one growable block of storage,

      | prependable | readable | writable |
      0          reader     writer      size

    with in-place compaction and growth. The class is proved against a plain
    sequence (the view) and against `Layout`, the index arithmetic. */
module ByteBuffer {
  const CHEAP_PREPEND: nat := 8
  const INITIAL_SIZE: nat := 1024

  function Max(a: int, b: int): int { if a < b then b else a }

  /** The three numbers that describe how the storage is divided. */
  datatype Layout = Layout(size: nat, reader: nat, writer: nat) {
    ghost predicate Ok() {
      reader <= writer <= size && CHEAP_PREPEND <= size
    }

    function Readable(): int { writer - reader }

    function Writable(): int { size - writer }

    ghost function EnsureWritable(len: nat): (l: Layout)
      requires Ok()
      ensures l.Ok() && l.Readable() == Readable() && l.Writable() >= len
    {
      if Writable() >= len then this
      else if Writable() + reader < len + CHEAP_PREPEND then Layout(writer + len, reader, writer)
      else Layout(size, CHEAP_PREPEND, CHEAP_PREPEND + Readable())
    }

    ghost function Append(len: nat): (l: Layout)
      requires Ok()
      ensures l.Ok() && l.Readable() == Readable() + len
    {
      var l := EnsureWritable(len); l.(writer := l.writer + len)
    }

    ghost function Retrieve(len: nat): (l: Layout)
      requires Ok() && len <= Readable()
      ensures l.Ok() && l.Readable() == Readable() - len
    {
      if len < Readable() then this.(reader := reader + len)
      else Layout(size, CHEAP_PREPEND, CHEAP_PREPEND)
    }

    ghost function Shrink(reserve: nat): (l: Layout)
      requires Ok()
      ensures l.Ok() && l.Readable() == Readable() && l.Writable() >= reserve
    {
      FreshLayout(INITIAL_SIZE).EnsureWritable(Readable() + reserve).Append(Readable())
    }
  }

  ghost function FreshLayout(initialSize: nat): Layout {
    Layout(CHEAP_PREPEND + initialSize, CHEAP_PREPEND, CHEAP_PREPEND)
  }

  class BufferEndian<T(0)> {
    var buffer: array<T>
    var readerIndex: nat
    var writerIndex: nat

    ghost predicate Valid()
      reads this
    {
      Shape().Ok()
    }

    function Shape(): Layout
      reads this
    {
      Layout(buffer.Length, readerIndex, writerIndex)
    }

    /** The readable bytes, oldest first. */
    ghost function Contents(): seq<T>
      requires Valid()
      reads this, buffer
    {
      buffer[readerIndex..writerIndex]
    }

    constructor (initialSize: nat)
      ensures Valid() && fresh(buffer)
      ensures Shape() == FreshLayout(initialSize) && Contents() == []
    {
      buffer := new T[CHEAP_PREPEND + initialSize];
      readerIndex, writerIndex := CHEAP_PREPEND, CHEAP_PREPEND;
    }

    method ReadableBytes() returns (n: nat)
      requires Valid()
      ensures n == |Contents()|
    {
      n := writerIndex - readerIndex;
    }

    /** The readable bytes from offset `from` up to offset `to`, left in place. */
    method View(from: nat, to: nat) returns (s: seq<T>)
      requires Valid() && from <= to <= |Contents()|
      ensures s == Contents()[from..to]
    {
      var all := buffer[readerIndex..writerIndex];
      s := all[from..to];
    }

    method Retrieve(len: nat)
      requires Valid() && len <= |Contents()|
      modifies this`readerIndex, this`writerIndex
      ensures Valid() && Shape() == old(Shape()).Retrieve(len)
      ensures Contents() == old(Contents())[len..]
    {
      if len < writerIndex - readerIndex {
        readerIndex := readerIndex + len;
      } else {
        RetrieveAll();
      }
    }

    method RetrieveAll()
      requires Valid()
      modifies this`readerIndex, this`writerIndex
      ensures Valid() && Contents() == []
      ensures Shape() == Layout(buffer.Length, CHEAP_PREPEND, CHEAP_PREPEND)
    {
      readerIndex, writerIndex := CHEAP_PREPEND, CHEAP_PREPEND;
    }

    method RetrieveAsString(len: nat) returns (s: seq<T>)
      requires Valid() && len <= |Contents()|
      modifies this`readerIndex, this`writerIndex
      ensures Valid() && Shape() == old(Shape()).Retrieve(len)
      ensures s == old(Contents())[..len] && Contents() == old(Contents())[len..]
    {
      s := buffer[readerIndex..readerIndex + len];
      assert s == Contents()[..len];
      hide Contents;
      Retrieve(len);
    }

    method Append(data: seq<T>)
      requires Valid()
      modifies this, buffer
      ensures Valid() && (buffer == old(buffer) || fresh(buffer))
      ensures Shape() == old(Shape()).Append(|data|)
      ensures Contents() == old(Contents()) + data
    {
      hide Contents, Layout.EnsureWritable;
      EnsureWritableBytes(|data|);
      Fill(data);
      HasWritten(|data|);
    }

    /** `memcpy` to `beginWrite()`: someone puts bytes at the start of the writable part. */
    method Fill(data: seq<T>)
      requires Valid() && |data| <= Shape().Writable()
      modifies buffer
      ensures Valid() && Contents() == old(Contents())
      ensures buffer[writerIndex..writerIndex + |data|] == data
    {
      forall i | 0 <= i < |data| {
        buffer[writerIndex + i] := data[i];
      }
    }

    method EnsureWritableBytes(len: nat)
      requires Valid()
      modifies this, buffer
      ensures Valid() && (buffer == old(buffer) || fresh(buffer))
      ensures Shape() == old(Shape()).EnsureWritable(len) && Shape().Writable() >= len
      ensures Contents() == old(Contents())
    {
      if buffer.Length - writerIndex < len {
        MakeSpace(len);
      }
    }

    /** Makes room by growing the storage, or by moving the readable bytes to
        the front; called only when the writable part is too small. */
    method MakeSpace(len: nat)
      requires Valid() && Shape().Writable() < len
      modifies this, buffer
      ensures Valid() && (buffer == old(buffer) || fresh(buffer))
      ensures Shape() == old(Shape()).EnsureWritable(len) && Shape().Writable() >= len
      ensures Contents() == old(Contents())
    {
      if buffer.Length - writerIndex + readerIndex < len + CHEAP_PREPEND {
        var grown := new T[writerIndex + len];
        forall i | 0 <= i < buffer.Length {
          grown[i] := buffer[i];
        }
        assert grown[readerIndex..writerIndex] == Contents();
        buffer := grown;
      } else {
        MoveToFront();
      }
    }

    /** The overlapping move of the readable bytes to the end of the prepend area. */
    method MoveToFront()
      requires Valid() && CHEAP_PREPEND < readerIndex
      modifies this`readerIndex, this`writerIndex, buffer
      ensures Valid() && Shape() == Layout(buffer.Length, CHEAP_PREPEND, CHEAP_PREPEND + old(Shape()).Readable())
      ensures Contents() == old(Contents())
    {
      var readable := writerIndex - readerIndex;
      ghost var was, shift := buffer[..], readerIndex - CHEAP_PREPEND;
      var i := 0;
      while i < readable
        invariant 0 <= i <= readable
        invariant buffer == old(buffer) && Shape() == old(Shape())
        invariant forall j :: CHEAP_PREPEND <= j < CHEAP_PREPEND + i ==> buffer[j] == was[j + shift]
        invariant forall j :: CHEAP_PREPEND + i <= j < buffer.Length ==> buffer[j] == was[j]
      {
        buffer[CHEAP_PREPEND + i] := buffer[readerIndex + i];
        i := i + 1;
      }
      readerIndex := CHEAP_PREPEND;
      writerIndex := readerIndex + readable;
    }

    /** The bytes someone put at the start of the writable part become readable. */
    method HasWritten(len: nat)
      requires Valid() && len <= Shape().Writable()
      modifies this`writerIndex
      ensures Valid() && Shape() == old(Shape()).(writer := old(writerIndex) + len)
      ensures Contents() == old(Contents()) + old(buffer[writerIndex..writerIndex + len])
    {
      writerIndex := writerIndex + len;
    }

    method Unwrite(len: nat)
      requires Valid() && len <= |Contents()|
      modifies this`writerIndex
      ensures Valid() && Shape() == old(Shape()).(writer := old(writerIndex) - len)
      ensures Contents() == old(Contents())[..|old(Contents())| - len]
    {
      writerIndex := writerIndex - len;
      assert buffer[readerIndex..writerIndex] == buffer[readerIndex..writerIndex + len][..writerIndex - readerIndex];
    }

    method Prepend(data: seq<T>)
      requires Valid() && |data| <= readerIndex
      modifies this`readerIndex, buffer
      ensures Valid() && Shape() == old(Shape()).(reader := old(readerIndex) - |data|)
      ensures Contents() == data + old(Contents())
    {
      readerIndex := readerIndex - |data|;
      forall i | 0 <= i < |data| {
        buffer[readerIndex + i] := data[i];
      }
    }

    method Shrink(reserve: nat)
      requires Valid()
      modifies this
      ensures Valid() && fresh(buffer)
      ensures Shape() == old(Shape()).Shrink(reserve) && Shape().Writable() >= reserve
      ensures Contents() == old(Contents())
    {
      var other := new BufferEndian<T>(INITIAL_SIZE);
      other.EnsureWritableBytes(writerIndex - readerIndex + reserve);
      other.Append(buffer[readerIndex..writerIndex]);
      buffer, readerIndex, writerIndex := other.buffer, other.readerIndex, other.writerIndex;
    }
  }
}
