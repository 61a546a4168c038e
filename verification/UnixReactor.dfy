/** The data path of `UnixReactor`: scatter reads that may overflow the buffer's
    tail into a local block, partial writes, and the error paths. */
module UnixReactor {
  import opened ByteBuffer

  const EXTRA: nat := 65536

  /** What one `readv` returns: bytes (none means end of stream), or an error. */
  datatype ReadResult = Data(bytes: string) | ReadAgain | ReadReset | ReadError

  /** What one `write` returns: how many bytes the kernel took, or an error. */
  datatype WriteResult = Wrote(n: nat) | WriteAgain | WriteReset | WriteError

  /** How a handler left: normally, after closing, or past an error that it
      reports and then goes on from with the error value as a length. */
  datatype Exit = Normal | Closed | Overrun | Dropped

  class Reactor {
    const readBuf: BufferEndian<char>
    const writeBuf: BufferEndian<char>
    ghost var received: string  // everything the kernel delivered
    ghost var consumed: string  // everything the user took out
    ghost var queued: string    // everything handed to `send`
    ghost var written: string   // everything the kernel took

    /** The four streams agree with the two buffers: nothing lost, nothing
        duplicated, order kept. */
    ghost predicate Valid()
      reads this, readBuf, readBuf.buffer, writeBuf, writeBuf.buffer
    {
      && readBuf != writeBuf && readBuf.buffer != writeBuf.buffer
      && readBuf.Valid() && writeBuf.Valid()
      && consumed + readBuf.Contents() == received
      && written + writeBuf.Contents() == queued
    }

    constructor ()
      ensures Valid() && received == [] && queued == []
      ensures fresh(readBuf) && fresh(readBuf.buffer) && fresh(writeBuf) && fresh(writeBuf.buffer)
    {
      readBuf := new BufferEndian<char>(INITIAL_SIZE);
      writeBuf := new BufferEndian<char>(INITIAL_SIZE);
      received, consumed, queued, written := [], [], [], [];
    }

    /** `readv` fills the writable tail of the buffer first and the local block
        after it; the block is offered only when the tail is smaller. */
    method Readv(bytes: string) returns (n: nat, extra: string)
      requires Valid() && |bytes| <= Capacity()
      modifies readBuf.buffer
      ensures Valid() && readBuf.Contents() == old(readBuf.Contents())
      ensures n == (if |bytes| <= readBuf.Shape().Writable() then |bytes| else readBuf.Shape().Writable())
      ensures extra == bytes[n..] && |extra| <= EXTRA
      ensures readBuf.buffer[readBuf.writerIndex..readBuf.writerIndex + n] == bytes[..n]
    {
      var writable := readBuf.buffer.Length - readBuf.writerIndex;
      n := if |bytes| <= writable then |bytes| else writable;
      readBuf.Fill(bytes[..n]);
      extra := bytes[n..];
    }

    /** How many bytes one read can bring. */
    ghost function Capacity(): nat
      reads readBuf
    {
      var writable := readBuf.buffer.Length - readBuf.writerIndex;
      if writable < 0 then 0 else if writable < EXTRA then writable + EXTRA else writable
    }

    /** `handleRead`, up to the message callback. */
    method HandleRead(r: ReadResult) returns (exit: Exit)
      requires Valid() && (r.Data? ==> |r.bytes| <= Capacity())
      modifies this`received, readBuf, readBuf.buffer
      ensures Valid() && (readBuf.buffer == old(readBuf.buffer) || fresh(readBuf.buffer))
      ensures received == old(received) + (if r.Data? then r.bytes else [])
      ensures readBuf.Contents() == old(readBuf.Contents()) + (if r.Data? then r.bytes else [])
      ensures exit == match r
        case Data(bytes) => if bytes == [] then Closed else Normal
        case ReadAgain => Normal
        case ReadReset => Overrun
        case ReadError => Overrun
    {
      match r
      case ReadAgain => return Normal;
      case ReadReset | ReadError => return Overrun;
      case Data(bytes) =>
        if bytes == [] {
          return Closed;
        }
        Absorb(bytes);
        return Normal;
    }

    /** The bytes of one read become readable: those in the tail where they are,
        those in the local block by appending. */
    method Absorb(bytes: string)
      requires Valid() && |bytes| <= Capacity()
      modifies this`received, readBuf, readBuf.buffer
      ensures Valid() && (readBuf.buffer == old(readBuf.buffer) || fresh(readBuf.buffer))
      ensures received == old(received) + bytes && readBuf.Contents() == old(readBuf.Contents()) + bytes
    {
      hide BufferEndian.Contents, Layout.Append, Layout.EnsureWritable, Layout.Ok;
      var before := readBuf.buffer.Length - readBuf.writerIndex;
      ghost var was := readBuf.Contents();
      var n, extra := Readv(bytes);
      assert bytes == bytes[..n] + extra;
      if |bytes| <= before {
        readBuf.HasWritten(|bytes|);
      } else {
        readBuf.HasWritten(before);
        readBuf.Append(extra);
        assert was + bytes[..n] + extra == was + bytes;
      }
      assert readBuf.Contents() == was + bytes;
      received := received + bytes;
      assert consumed + (was + bytes) == (consumed + was) + bytes;
    }

    /** The user's message callback takes bytes from the front. */
    method Consume(n: nat)
      requires Valid() && n <= |readBuf.Contents()|
      modifies this`consumed, readBuf`readerIndex, readBuf`writerIndex
      ensures Valid() && consumed == old(consumed) + old(readBuf.Contents())[..n]
      ensures readBuf.Contents() == old(readBuf.Contents())[n..]
    {
      hide BufferEndian.Contents;
      ghost var was := readBuf.Contents();
      readBuf.Retrieve(n);
      consumed := consumed + was[..n];
      assert was == was[..n] + was[n..];
    }

    /** `TCPConnection::send` on the loop thread. */
    method Send(data: string)
      requires Valid()
      modifies this`queued, writeBuf, writeBuf.buffer
      ensures Valid() && (writeBuf.buffer == old(writeBuf.buffer) || fresh(writeBuf.buffer))
      ensures queued == old(queued) + data && writeBuf.Contents() == old(writeBuf.Contents()) + data
    {
      ghost var was := writeBuf.Contents();
      writeBuf.Append(data);
      queued := queued + data;
      assert written + (was + data) == (written + was) + data;
    }

    /** `handleWrite`: the kernel took a prefix of what was offered. After a fatal
        error the handler goes on and retrieves the error value: with assertions on
        it aborts, without them everything still buffered is dropped. */
    method HandleWrite(r: WriteResult, assertions: bool) returns (exit: Exit)
      requires Valid() && (r.Wrote? ==> r.n <= |writeBuf.Contents()|)
      modifies this`written, writeBuf`readerIndex, writeBuf`writerIndex
      ensures exit == if r.Wrote? || r.WriteAgain? then Normal else if assertions then Overrun else Dropped
      ensures writeBuf.Valid() && (exit != Dropped ==> Valid())
      ensures written == old(written) + (if r.Wrote? then old(writeBuf.Contents())[..r.n] else [])
      ensures writeBuf.Contents() ==
        if exit == Dropped then [] else old(writeBuf.Contents())[if r.Wrote? then r.n else 0..]
    {
      hide BufferEndian.Contents;
      match r
      case WriteAgain => return Normal;
      case WriteReset | WriteError =>
        if assertions {
          return Overrun;
        }
        writeBuf.RetrieveAll();
        return Dropped;
      case Wrote(n) =>
        ghost var was := writeBuf.Contents();
        writeBuf.Retrieve(n);
        written := written + was[..n];
        assert was == was[..n] + was[n..];
        return Normal;
    }
  }
}
